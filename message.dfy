/** The comment the verifier leaves on a bug: a fixed first line naming the
    release, then either the list of reasons the bug cannot be verified
    automatically or the announcement that it is being verified. */
module Messages {
  import opened Text
  import opened Model

  // The fixed lines are written in short pieces, which keeps the verifier's
  // reasoning about their characters cheap.
  const PREAMBLE := "Bug will not be automatically " + "moved to VERIFIED for the " + "following reasons:"
  const MANUAL := "This bug must now be " + "manually moved to VERIFIED"
  const SUCCESS_LINE := "All linked GitHub PRs have been " + "approved by a QA contact; " + "updating bug status to VERIFIED"

  function BaseLine(tag: string): string {
    "Bugfix included in accepted release " + tag
  }

  function PrLine(p: Pr): string {
    "- PR " + p.org + "/" + p.repo + "#" + IntToString(p.prNum) + " not approved by QA contact"
  }

  function ReasonLine(e: VerifyError): string {
    "- " + ErrorText(e)
  }

  /** The closing line, naming the QA contact when the bug has one. */
  function ManualLine(qaContact: Option<string>): string {
    if qaContact.Some? then MANUAL + " by " + qaContact.value else MANUAL
  }

  /** One line per element, in order. Generic in the line, so that reasoning
      about the list never looks inside a line. */
  function LinesOf<T>(xs: seq<T>, line: T -> string): (lines: seq<string>)
    ensures |lines| == |xs|
    ensures forall i :: 0 <= i < |xs| ==> lines[i] == line(xs[i])
  {
    if xs == [] then [] else LinesOf(xs[..|xs| - 1], line) + [line(xs[|xs| - 1])]
  }

  function PrLines(prs: seq<Pr>): seq<string> {
    LinesOf(prs, PrLine)
  }

  function ReasonLines(errs: seq<VerifyError>): seq<string> {
    LinesOf(errs, ReasonLine)
  }

  /** The text of lines appended one at a time, each after a newline. */
  function NewlineLed(lines: seq<string>): string {
    if lines == [] then [] else NewlineLed(lines[..|lines| - 1]) + "\n" + lines[|lines| - 1]
  }

  /** Whether the bug fails verification: some pull request is unapproved
      or some reason was recorded. */
  predicate Fails(unlabeled: seq<Pr>, reasons: seq<VerifyError>) {
    |unlabeled| > 0 || |reasons| > 0
  }

  /** The message composed for a bug, as the source builds it. */
  function Message(tag: string, unlabeled: seq<Pr>, reasons: seq<VerifyError>, qaContact: Option<string>): string {
    if Fails(unlabeled, reasons) then
      BaseLine(tag) + "\n" + PREAMBLE + NewlineLed(PrLines(unlabeled)) + NewlineLed(ReasonLines(reasons))
      + "\n\n" + ManualLine(qaContact)
    else
      BaseLine(tag) + "\n" + SUCCESS_LINE
  }

  /** The lines of the message, in order. */
  function MessageLines(tag: string, unlabeled: seq<Pr>, reasons: seq<VerifyError>, qaContact: Option<string>): seq<string> {
    if Fails(unlabeled, reasons) then
      [BaseLine(tag), PREAMBLE] + PrLines(unlabeled) + ReasonLines(reasons) + ["", ManualLine(qaContact)]
    else
      [BaseLine(tag), SUCCESS_LINE]
  }

  predicate OneLine(s: string) {
    '\n' !in s
  }

  /** The conditions under which no piece of the message spans lines. */
  predicate SingleLinePieces(tag: string, unlabeled: seq<Pr>, reasons: seq<VerifyError>, qaContact: Option<string>) {
    && OneLine(tag)
    && (forall i :: 0 <= i < |unlabeled| ==> OneLine(unlabeled[i].org) && OneLine(unlabeled[i].repo))
    && (forall i :: 0 <= i < |reasons| ==> OneLine(ErrorText(reasons[i])))
    && (qaContact.Some? ==> OneLine(qaContact.value))
  }

  lemma {:induction false} JoinThenLines(head: seq<string>, lines: seq<string>)
    requires |head| >= 1
    ensures Join(head + lines, '\n') == Join(head, '\n') + NewlineLed(lines)
  {
    if lines != [] {
      var init, last := lines[..|lines| - 1], lines[|lines| - 1];
      var all := head + lines;
      JoinThenLines(head, init);
      assert all[..|all| - 1] == head + init && all[|all| - 1] == last;
      assert Join(all, '\n') == Join(head + init, '\n') + ['\n'] + last;
      assert NewlineLed(lines) == NewlineLed(init) + ['\n'] + last;
      var j, n := Join(head, '\n'), NewlineLed(init);
      assert (j + n) + ['\n'] + last == j + (n + ['\n'] + last);
    } else {
      assert head + lines == head;
    }
  }

  /** The message is its lines joined by newlines. */
  lemma MessageIsJoin(tag: string, unlabeled: seq<Pr>, reasons: seq<VerifyError>, qaContact: Option<string>)
    ensures Message(tag, unlabeled, reasons, qaContact) == Join(MessageLines(tag, unlabeled, reasons, qaContact), '\n')
  {
    var lines := MessageLines(tag, unlabeled, reasons, qaContact);
    if Fails(unlabeled, reasons) {
      FailureIsJoin(BaseLine(tag), PREAMBLE, PrLines(unlabeled), ReasonLines(reasons), ManualLine(qaContact));
    } else {
      assert lines[..1] == [BaseLine(tag)];
    }
  }

  lemma FailureIsJoin(base: string, preamble: string, prs: seq<string>, reasons: seq<string>, manual: string)
    ensures Join([base, preamble] + prs + reasons + ["", manual], '\n') ==
      base + "\n" + preamble + NewlineLed(prs) + NewlineLed(reasons) + "\n\n" + manual
  {
    var head := [base, preamble];
    var tail := ["", manual];
    JoinThenLines(head, prs);
    JoinThenLines(head + prs, reasons);
    JoinThenLines(head + prs + reasons, tail);
    JoinPair(base, preamble);
    BlankThenLine(manual);
    var x, y, z := NewlineLed(prs), NewlineLed(reasons), "\n\n" + manual;
    assert Join(head + prs + reasons + tail, '\n') == base + "\n" + preamble + x + y + z;
  }

  lemma JoinPair(a: string, b: string)
    ensures Join([a, b], '\n') == a + "\n" + b
  {
    assert [a, b][..1] == [a];
  }

  lemma BlankThenLine(line: string)
    ensures NewlineLed(["", line]) == "\n\n" + line
  {
    assert ["", line][..1] == [""] && [""][..0] == [];
    assert NewlineLed([""]) == "\n";
  }

  /** Splitting the message at newlines recovers its lines: the first line,
      then (on failure) the preamble, one line per unapproved pull request in
      order, one line per reason in order, a blank line and the closing line;
      or (on success) the announcement. */
  lemma MessageLinesRoundTrip(tag: string, unlabeled: seq<Pr>, reasons: seq<VerifyError>, qaContact: Option<string>)
    requires SingleLinePieces(tag, unlabeled, reasons, qaContact)
    ensures Split(Message(tag, unlabeled, reasons, qaContact), '\n') == MessageLines(tag, unlabeled, reasons, qaContact)
  {
    MessageIsJoin(tag, unlabeled, reasons, qaContact);
    var lines := MessageLines(tag, unlabeled, reasons, qaContact);
    LinesAreSingle(tag, unlabeled, reasons, qaContact);
    SplitJoin(lines, '\n');
  }

  lemma FixedLinesAreSingle()
    ensures OneLine(PREAMBLE) && OneLine(MANUAL) && OneLine(SUCCESS_LINE)
  {
    PreambleIsSingle();
    ManualIsSingle();
    SuccessIsSingle();
  }

  lemma PreambleIsSingle() ensures OneLine(PREAMBLE) { }
  lemma ManualIsSingle() ensures OneLine(MANUAL) { }
  lemma SuccessIsSingle() ensures OneLine(SUCCESS_LINE) { }

  lemma PieceLinesAreSingle(tag: string, p: Pr, qaContact: Option<string>)
    requires OneLine(tag) && OneLine(p.org) && OneLine(p.repo)
    requires qaContact.Some? ==> OneLine(qaContact.value)
    ensures OneLine(BaseLine(tag)) && OneLine(PrLine(p)) && OneLine(ManualLine(qaContact))
  {
    FixedLinesAreSingle();
  }

  predicate AllSingle(lines: seq<string>) {
    forall i :: 0 <= i < |lines| ==> OneLine(lines[i])
  }

  lemma ConcatSingle(a: seq<string>, b: seq<string>)
    requires AllSingle(a) && AllSingle(b)
    ensures AllSingle(a + b)
  {
    forall i | 0 <= i < |a + b| ensures OneLine((a + b)[i]) {
      if i >= |a| {
        assert (a + b)[i] == b[i - |a|];
      }
    }
  }

  lemma LinesAreSingle(tag: string, unlabeled: seq<Pr>, reasons: seq<VerifyError>, qaContact: Option<string>)
    requires SingleLinePieces(tag, unlabeled, reasons, qaContact)
    ensures AllSingle(MessageLines(tag, unlabeled, reasons, qaContact))
  {
    var anyPr := Pr("", "", 0);
    FixedLinesAreSingle();
    PieceLinesAreSingle(tag, anyPr, qaContact);
    var head := [BaseLine(tag), PREAMBLE];
    if Fails(unlabeled, reasons) {
      var prs, rs := PrLines(unlabeled), ReasonLines(reasons);
      var tail := ["", ManualLine(qaContact)];
      forall i | 0 <= i < |prs| ensures OneLine(prs[i]) {
        PieceLinesAreSingle(tag, unlabeled[i], qaContact);
      }
      ConcatSingle(head, prs);
      ConcatSingle(head + prs, rs);
      ConcatSingle(head + prs + rs, tail);
    }
  }

  /** A failure message never equals a success message, whatever the QA
      contacts: the two differ in the first character after the release
      line. */
  lemma OutcomesDiffer(tag: string, unlabeled: seq<Pr>, reasons: seq<VerifyError>, qa1: Option<string>, qa2: Option<string>)
    requires Fails(unlabeled, reasons)
    ensures Message(tag, unlabeled, reasons, qa1) != Message(tag, [], [], qa2)
  {
    var k := |BaseLine(tag)| + 1;
    var failure := Message(tag, unlabeled, reasons, qa1);
    var success := Message(tag, [], [], qa2);
    assert failure[k] == PREAMBLE[0] == 'B';
    assert success[k] == SUCCESS_LINE[0] == 'A';
  }

  /** Appending one more line to text already built. */
  lemma NewlineLedSnoc(head: string, lines: seq<string>, line: string)
    ensures head + NewlineLed(lines + [line]) == head + NewlineLed(lines) + "\n" + line
  {
    assert (lines + [line])[..|lines|] == lines;
  }

  lemma PrLinesStep(prs: seq<Pr>, i: nat)
    requires i < |prs|
    ensures PrLines(prs[..i + 1]) == PrLines(prs[..i]) + [PrLine(prs[i])]
  {
    assert prs[..i + 1][..i] == prs[..i];
  }

  lemma ReasonLinesStep(errs: seq<VerifyError>, i: nat)
    requires i < |errs|
    ensures ReasonLines(errs[..i + 1]) == ReasonLines(errs[..i]) + [ReasonLine(errs[i])]
  {
    assert errs[..i + 1][..i] == errs[..i];
  }

  /** Appends one line per unapproved pull request, each after a newline. */
  method AppendPrLines(start: string, prs: seq<Pr>) returns (message: string)
    ensures message == start + NewlineLed(PrLines(prs))
  {
    message := start;
    for i := 0 to |prs|
      invariant message == start + NewlineLed(PrLines(prs[..i]))
    {
      PrLinesStep(prs, i);
      NewlineLedSnoc(start, PrLines(prs[..i]), PrLine(prs[i]));
      message := message + "\n" + PrLine(prs[i]);
    }
    assert prs[..|prs|] == prs;
  }

  /** Appends one line per reason, each after a newline. */
  method AppendReasonLines(start: string, errs: seq<VerifyError>) returns (message: string)
    ensures message == start + NewlineLed(ReasonLines(errs))
  {
    message := start;
    for i := 0 to |errs|
      invariant message == start + NewlineLed(ReasonLines(errs[..i]))
    {
      ReasonLinesStep(errs, i);
      NewlineLedSnoc(start, ReasonLines(errs[..i]), ReasonLine(errs[i]));
      message := message + "\n" + ReasonLine(errs[i]);
    }
    assert errs[..|errs|] == errs;
  }

  /** Composes the message the way the source does: start from the first
      line and append to it step by step. */
  method ComposeMessage(tagName: string, unlabeledPRs: seq<Pr>, bugErrs: seq<VerifyError>, qaContact: Option<string>)
    returns (message: string)
    ensures message == Message(tagName, unlabeledPRs, bugErrs, qaContact)
  {
    message := BaseLine(tagName);
    if |unlabeledPRs| > 0 || |bugErrs| > 0 {
      message := message + "\n" + PREAMBLE;
      message := AppendPrLines(message, unlabeledPRs);
      message := AppendReasonLines(message, bugErrs);
      ghost var body := message + "\n\n";
      message := message + "\n\n" + MANUAL;
      if qaContact.Some? {
        message := message + " by " + qaContact.value;
        ConcatAssoc(body, MANUAL, " by ");
        ConcatAssoc(body, MANUAL + " by ", qaContact.value);
      }
      assert message == body + ManualLine(qaContact);
    } else {
      message := message + "\n" + SUCCESS_LINE;
    }
  }
}
