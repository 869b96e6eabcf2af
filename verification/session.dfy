/**
  The interactive loop of `main`: read a URL, quit, re-prompt or download,
  then ask whether to go on. As a state machine, one input line at a time:
  `Step` is one transition, `Run` and `Requests` follow a whole sequence of
  inputs, and `RunSession` is the loop itself, shaped as `main` writes it.
  Whether a download succeeds is an oracle, given with each input.
 */
module Session {
  import opened Text

  /** Where the session stands between two input lines. */
  datatype Phase =
    | Prompting                            // waiting for a URL
    | AskingRetry(lastSucceeded: bool)     // a download was attempted; waiting for the y/n answer
    | Terminated                           // the loop has exited

  /** One thing the user does at a prompt: enter a line, or interrupt (Ctrl-C). */
  datatype Input = Line(text: string) | Interrupt

  /** An input, with the outcome the download would have if this input starts one. */
  datatype Turn = Turn(input: Input, downloadOk: bool)

  /** The stripped URL line asks to leave: its lower-case form is `quit`, `exit`, `q` or empty. */
  predicate IsQuitCommand(url: string) {
    AsciiLower(url) in ["quit", "exit", "q", ""]
  }

  /** The URL passes validation: it starts with `http://` or `https://`, case-sensitively. */
  predicate IsWebUrl(url: string) {
    StartsWith(url, "http://") || StartsWith(url, "https://")
  }

  /** The answer to "try again?" is yes: stripped and lower-cased, it is `y` or `yes`. */
  predicate IsAffirmative(answer: string) {
    AsciiLower(Strip(answer)) in ["y", "yes"]
  }

  /**
    One transition of the loop on one input. An interrupt always ends the
    loop and nothing revives it; the y/n question follows only a URL line and
    records how that URL's download went.
   */
  function Step(phase: Phase, input: Input, downloadOk: bool): (next: Phase)
    ensures input.Interrupt? || phase.Terminated? ==> next == Terminated
    ensures next.AskingRetry? ==> phase.Prompting? && next.lastSucceeded == downloadOk
    ensures phase.AskingRetry? ==> !next.AskingRetry?
  {
    match input
    case Interrupt => Terminated
    case Line(text) =>
      match phase
      case Terminated => Terminated
      case Prompting =>
        var url := Strip(text);
        if IsQuitCommand(url) then Terminated
        else if !IsWebUrl(url) then Prompting
        else AskingRetry(downloadOk)
      case AskingRetry(_) =>
        if IsAffirmative(text) then Prompting else Terminated
  }

  /**
    The URL handed to `download_image` by this transition, if it makes one:
    at most one, and one exactly when the transition moves on to the y/n question.
   */
  function Requested(phase: Phase, input: Input): (urls: seq<string>)
    ensures |urls| <= 1
    ensures urls != [] <==> Step(phase, input, true).AskingRetry?
    ensures urls != [] <==> Step(phase, input, false).AskingRetry?
  {
    if phase.Prompting? && input.Line? && !IsQuitCommand(Strip(input.text)) && IsWebUrl(Strip(input.text)) then
      [Strip(input.text)]
    else
      []
  }

  /** The phase after the given turns, starting from `start`. */
  function Run(start: Phase, turns: seq<Turn>): Phase {
    if turns == [] then start
    else
      var last := turns[|turns| - 1];
      Step(Run(start, turns[..|turns| - 1]), last.input, last.downloadOk)
  }

  /** The URLs downloaded during the given turns, in order. */
  function Requests(start: Phase, turns: seq<Turn>): seq<string> {
    if turns == [] then []
    else
      var init := turns[..|turns| - 1];
      Requests(start, init) + Requested(Run(start, init), turns[|turns| - 1].input)
  }

  /** One more input: the run advances by one step. */
  lemma RunOneMore(start: Phase, turns: seq<Turn>, n: nat)
    requires n < |turns|
    ensures Run(start, turns[..n + 1]) == Step(Run(start, turns[..n]), turns[n].input, turns[n].downloadOk)
    ensures Requests(start, turns[..n + 1]) == Requests(start, turns[..n]) + Requested(Run(start, turns[..n]), turns[n].input)
  {
    assert turns[..n + 1][..n] == turns[..n];
  }

  /** The transition on a URL line, as `main` takes it apart. */
  lemma UrlTurn(turns: seq<Turn>, n: nat)
    requires n < |turns| && Run(Prompting, turns[..n]) == Prompting
    ensures var t := turns[n];
      && (t.input.Interrupt? || IsQuitCommand(Strip(t.input.text))
          ==> Run(Prompting, turns[..n + 1]) == Terminated && Requests(Prompting, turns[..n + 1]) == Requests(Prompting, turns[..n]))
      && (t.input.Line? && !IsQuitCommand(Strip(t.input.text)) && !IsWebUrl(Strip(t.input.text))
          ==> Run(Prompting, turns[..n + 1]) == Prompting && Requests(Prompting, turns[..n + 1]) == Requests(Prompting, turns[..n]))
      && (t.input.Line? && !IsQuitCommand(Strip(t.input.text)) && IsWebUrl(Strip(t.input.text))
          ==> Run(Prompting, turns[..n + 1]) == AskingRetry(t.downloadOk)
              && Requests(Prompting, turns[..n + 1]) == Requests(Prompting, turns[..n]) + [Strip(t.input.text)])
  {
    RunOneMore(Prompting, turns, n);
  }

  /** The transition on the answer to "try again?". */
  lemma AnswerTurn(turns: seq<Turn>, n: nat, lastSucceeded: bool)
    requires n < |turns| && Run(Prompting, turns[..n]) == AskingRetry(lastSucceeded)
    ensures var t := turns[n];
      && Requests(Prompting, turns[..n + 1]) == Requests(Prompting, turns[..n])
      && (t.input.Interrupt? || !IsAffirmative(t.input.text) ==> Run(Prompting, turns[..n + 1]) == Terminated)
      && (t.input.Line? && IsAffirmative(t.input.text) ==> Run(Prompting, turns[..n + 1]) == Prompting)
  {
    RunOneMore(Prompting, turns, n);
  }

  /** Running two stretches of input one after the other is running them together. */
  lemma {:induction false} RunAppend(start: Phase, xs: seq<Turn>, ys: seq<Turn>)
    ensures Run(start, xs + ys) == Run(Run(start, xs), ys)
    ensures Requests(start, xs + ys) == Requests(start, xs) + Requests(Run(start, xs), ys)
  {
    if ys == [] {
      assert xs + ys == xs;
    } else {
      var init := ys[..|ys| - 1];
      assert (xs + ys)[..|xs + ys| - 1] == xs + init;
      assert (xs + ys)[|xs + ys| - 1] == ys[|ys| - 1];
      RunAppend(start, xs, init);
    }
  }

  /** Once the session has ended, no input changes anything and nothing is downloaded. */
  lemma {:induction false} TerminatedIsFinal(turns: seq<Turn>)
    ensures Run(Terminated, turns) == Terminated
    ensures Requests(Terminated, turns) == []
  {
    if turns != [] {
      TerminatedIsFinal(turns[..|turns| - 1]);
    }
  }

  /** Whatever follows termination leaves the run, and its downloads, as they were. */
  lemma RestAfterTermination(turns: seq<Turn>, n: nat)
    requires n <= |turns|
    requires n < |turns| ==> Run(Prompting, turns[..n]) == Terminated
    ensures Run(Prompting, turns) == Run(Prompting, turns[..n])
    ensures Requests(Prompting, turns) == Requests(Prompting, turns[..n])
  {
    assert turns[..n] + turns[n..] == turns;
    RunAppend(Prompting, turns[..n], turns[n..]);
    if n < |turns| {
      TerminatedIsFinal(turns[n..]);
    } else {
      assert turns[n..] == [];
    }
  }

  /**
    What `RunSession` reports once it stops after reading `n` inputs, having
    reached `phase` and downloaded `requested`: stopping early means the last
    input read ended the session, and then the rest changes nothing.
   */
  lemma SessionOutcome(turns: seq<Turn>, n: nat, phase: Phase, requested: seq<string>)
    requires n <= |turns|
    requires phase == Run(Prompting, turns[..n]) && requested == Requests(Prompting, turns[..n])
    requires n < |turns| ==> phase == Terminated
    ensures phase == Run(Prompting, turns)
    ensures requested == Requests(Prompting, turns)
    ensures forall url :: url in requested ==> IsWebUrl(url) && !IsQuitCommand(url) && Strip(url) == url
  {
    RestAfterTermination(turns, n);
    RequestsAreValidated(Prompting, turns);
  }

  /**
    Every URL the session downloads passed validation: it is stripped, it is
    not a quit command, and it starts with `http://` or `https://`.
   */
  lemma {:induction false} RequestsAreValidated(start: Phase, turns: seq<Turn>)
    ensures forall url :: url in Requests(start, turns) ==> IsWebUrl(url) && !IsQuitCommand(url) && Strip(url) == url
  {
    if turns != [] {
      var init := turns[..|turns| - 1];
      RequestsAreValidated(start, init);
      var last := turns[|turns| - 1].input;
      var made := Requested(Run(start, init), last);
      assert Requests(start, turns) == Requests(start, init) + made;
      if made != [] {
        StripIdempotent(last.text);
        assert made == [Strip(last.text)];
      }
    }
  }

  /**
    A quit command at a prompt ends the session: whatever follows is never
    acted upon and nothing is downloaded.
   */
  lemma QuitEndsSession(line: string, downloadOk: bool, rest: seq<Turn>)
    requires IsQuitCommand(Strip(line))
    ensures Run(Prompting, [Turn(Line(line), downloadOk)] + rest) == Terminated
    ensures Requests(Prompting, [Turn(Line(line), downloadOk)] + rest) == []
  {
    var first := [Turn(Line(line), downloadOk)];
    assert first[..0] == [];
    RunAppend(Prompting, first, rest);
    TerminatedIsFinal(rest);
  }

  /**
    After a download attempt the answer alone decides: the session goes back
    to prompting exactly when the answer is `y` or `yes`, and otherwise ends,
    whether or not the download succeeded.
   */
  lemma RetryAnswerDecides(lastSucceeded: bool, answer: string, downloadOk: bool)
    ensures Step(AskingRetry(lastSucceeded), Line(answer), downloadOk) == Prompting <==> IsAffirmative(answer)
    ensures Step(AskingRetry(lastSucceeded), Line(answer), downloadOk) == Terminated <==> !IsAffirmative(answer)
    ensures Step(AskingRetry(lastSucceeded), Line(answer), downloadOk) == Step(AskingRetry(!lastSucceeded), Line(answer), downloadOk)
    ensures Requested(AskingRetry(lastSucceeded), Line(answer)) == []
  {
  }

  /**
    A line that is neither a quit command nor a web URL sends the session
    back to the prompt without a download. The URL check is case-sensitive
    while the quit check is not: `HTTP://` is rejected, `QUIT` quits.
   */
  lemma InvalidUrlReprompts(line: string, downloadOk: bool)
    requires !IsQuitCommand(Strip(line)) && !IsWebUrl(Strip(line))
    ensures Step(Prompting, Line(line), downloadOk) == Prompting
    ensures Requested(Prompting, Line(line)) == []
  {
  }

  /** `QUIT` ends the session: the quit check ignores case. */
  lemma UpperCaseQuitQuits(downloadOk: bool, rest: seq<Turn>)
    ensures Run(Prompting, [Turn(Line("QUIT"), downloadOk)] + rest) == Terminated
    ensures Requests(Prompting, [Turn(Line("QUIT"), downloadOk)] + rest) == []
  {
    StripUnpadded("QUIT");
    assert IsQuitCommand("QUIT") by {
      assert AsciiLower("QUIT") == "quit";
    }
    QuitEndsSession("QUIT", downloadOk, rest);
  }

  /** The quit check ignores case: a line and its lower-case form quit alike. */
  lemma QuitCommandIgnoresCase(url: string)
    ensures IsQuitCommand(url) <==> IsQuitCommand(AsciiLower(url))
  {
    AsciiLowerIdempotent(url);
  }

  /** A line of five or more characters is no quit command. */
  lemma NotQuitCommand(url: string)
    requires |url| > 4
    ensures !IsQuitCommand(url)
  {
    assert |AsciiLower(url)| == |url|;
  }

  /**
    A URL whose scheme is written `HTTP://` is rejected without a download:
    unlike the quit check, the scheme check does not ignore case.
   */
  lemma UpperCaseSchemeRejected(line: string, downloadOk: bool)
    requires StartsWith(Strip(line), "HTTP://")
    ensures Step(Prompting, Line(line), downloadOk) == Prompting
    ensures Requested(Prompting, Line(line)) == []
  {
    var url := Strip(line);
    assert url[..7] == "HTTP://";
    NotQuitCommand(url);
    assert !IsWebUrl(url) by {
      assert url[..7][0] != "http://"[0];
      assert |url| >= 8 ==> url[..8][0] != "https://"[0];
    }
    InvalidUrlReprompts(line, downloadOk);
  }

  /** An `ftp://` URL is rejected without a download. */
  lemma FtpUrlRejected(line: string, downloadOk: bool)
    requires StartsWith(Strip(line), "ftp://")
    ensures Step(Prompting, Line(line), downloadOk) == Prompting
    ensures Requested(Prompting, Line(line)) == []
  {
    var url := Strip(line);
    assert url[..6] == "ftp://";
    NotQuitCommand(url);
    assert !IsWebUrl(url) by {
      assert |url| >= 7 ==> url[..7][0] != "http://"[0];
      assert |url| >= 8 ==> url[..8][0] != "https://"[0];
    }
    InvalidUrlReprompts(line, downloadOk);
  }

  /**
    The `while True` loop of `main`. Each round reads a URL line; a quit
    command or an interrupt ends the loop, an invalid URL starts the next
    round, and a valid one is downloaded and followed by the y/n question,
    read from the next line. Returns the phase reached, the URLs downloaded
    and how many inputs were read. Reading stops at termination, or when
    the inputs run out.
   */
  method RunSession(turns: seq<Turn>) returns (phase: Phase, requested: seq<string>, consumed: nat)
    ensures consumed <= |turns|
    ensures phase == Run(Prompting, turns[..consumed]) && phase == Run(Prompting, turns)
    ensures requested == Requests(Prompting, turns[..consumed]) && requested == Requests(Prompting, turns)
    ensures consumed < |turns| ==> phase == Terminated
    ensures phase == Terminated ==> 0 < consumed && Run(Prompting, turns[..consumed - 1]) != Terminated
    ensures forall url :: url in requested ==> IsWebUrl(url) && !IsQuitCommand(url) && Strip(url) == url
  {
    phase, requested, consumed := Prompting, [], 0;
    while consumed < |turns|
      invariant consumed <= |turns|
      invariant phase == Prompting && phase == Run(Prompting, turns[..consumed])
      invariant requested == Requests(Prompting, turns[..consumed])
    {
      var urlTurn := turns[consumed];
      UrlTurn(turns, consumed);
      consumed := consumed + 1;
      assert Run(Prompting, turns[..consumed - 1]) == Prompting;
      if urlTurn.input.Interrupt? {
        phase := Terminated;
        SessionOutcome(turns, consumed, phase, requested);
        return;
      }
      var url := Strip(urlTurn.input.text);
      if IsQuitCommand(url) {
        phase := Terminated;
        SessionOutcome(turns, consumed, phase, requested);
        return;
      }
      if !IsWebUrl(url) {
        continue;
      }
      requested := requested + [url];
      phase := AskingRetry(urlTurn.downloadOk);
      if consumed == |turns| {
        break;
      }
      var choiceTurn := turns[consumed];
      AnswerTurn(turns, consumed, urlTurn.downloadOk);
      consumed := consumed + 1;
      assert Run(Prompting, turns[..consumed - 1]) == AskingRetry(urlTurn.downloadOk);
      if choiceTurn.input.Interrupt? || !IsAffirmative(choiceTurn.input.text) {
        phase := Terminated;
        SessionOutcome(turns, consumed, phase, requested);
        return;
      }
      phase := Prompting;
    }
    SessionOutcome(turns, consumed, phase, requested);
  }
}
