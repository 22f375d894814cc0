/** The texts a failed pod can be reported with, and what can be read back from them. */
module FailureMessages {
  import opened Decimal

  const EXIT_CODE_143_ERROR := "Error (exit code 143)"
  const POD_DELETED_MESSAGE := "pod deleted"

  function ExitText(reason: string, code: int): string {
    reason + " (exit code " + Itoa(code) + ")"
  }

  function ExitMessage(reason: string, code: int, message: string): string {
    if message == "" then ExitText(reason, code) else ExitText(reason, code) + ": " + message
  }

  function WaitingMessage(container: string, reason: string, message: string): string {
    "Pod failed before " + container + " container starts due to " + reason + ": " + message
  }

  function UnexpectedPhaseMessage(pod: string, phase: string): string {
    "Unexpected pod phase for " + pod + ": " + phase
  }

  function CodeStart(reason: string, code: int): nat {
    |ExitText(reason, code)| - 2 - |Itoa(code)|
  }

  /** The exit code is delimited by the last space of the text, whatever the reason contains. */
  lemma CodeFollowsLastSpace(reason: string, code: int)
    ensures var (s, k) := (ExitText(reason, code), CodeStart(reason, code));
      s[k] == ' ' && forall i | k < i < |s| :: s[i] != ' '
  {
    var (s, d, k) := (ExitText(reason, code), Itoa(code), CodeStart(reason, code));
    assert s == reason + " (exit code " + d + ")" && k == |reason| + 11;
    forall i | k < i < |s|
      ensures s[i] != ' '
    {
      if i < |s| - 1 {
        assert s[i] == d[i - k - 1];
      }
    }
  }

  /** Reason and exit code can both be read back from the text, for every reason. */
  lemma ExitTextInjective(reason: string, code: int32, reason': string, code': int32)
    requires ExitText(reason, code) == ExitText(reason', code')
    ensures reason == reason' && code == code'
  {
    CodeFollowsLastSpace(reason, code);
    CodeFollowsLastSpace(reason', code');
    assert CodeStart(reason, code) == CodeStart(reason', code');
    var s := ExitText(reason, code);
    var n := |reason|;
    assert reason == s[..n] && reason' == s[..n];
    assert Itoa(code) == s[n + 12..|s| - 1] && Itoa(code') == s[n + 12..|s| - 1];
    AtoiOfItoa(code);
    AtoiOfItoa(code');
  }

  /** With a termination message the text need not determine its parts. */
  lemma ExitMessagesCollide()
    ensures ExitMessage("a", 1, "x (exit code 2)") == ExitMessage("a (exit code 1): x", 2, "")
  {
    assert ExitText("a", 1) + ": " + "x (exit code 2)" == "a (exit code 1): x" + " (exit code " + Itoa(2) + ")";
  }

  /** The text that follows the reason. */
  function Tail(code: int, message: string): string {
    ExitMessage("", code, message)
  }

  lemma ReasonThenTail(reason: string, code: int, message: string)
    ensures ExitMessage(reason, code, message) == reason + Tail(code, message)
  {
    assert ExitText(reason, code) == reason + ExitText("", code);
  }

  /** The layout of a tail: a fixed opening, the code, a closing parenthesis that is the first one, then
      nothing or a colon, a space and the message. */
  lemma TailLayout(code: int, message: string)
    ensures var (t, n) := (Tail(code, message), 12 + |Itoa(code)|);
      && t[..12] == " (exit code " && t[12..n] == Itoa(code)
      && n < |t| && t[n] == ')' && (forall i | 0 <= i < n :: t[i] != ')')
      && t[..n + 1] == ExitText("", code)
      && t[n + 1..] == (if message == "" then "" else ": " + message)
  {
    var (t, d) := (Tail(code, message), Itoa(code));
    var n := 12 + |d|;
    assert ExitText("", code) == " (exit code " + d + ")";
    assert t == " (exit code " + d + ")" + (if message == "" then "" else ": " + message);
    assert t[..12] == " (exit code " && t[12..n] == d;
    forall i | 0 <= i < n
      ensures t[i] != ')'
    {
      assert t[i] == if i < 12 then " (exit code "[i] else d[i - 12];
    }
  }

  lemma TailDecodes(code: int32, message: string, code': int32, message': string)
    requires Tail(code, message) == Tail(code', message')
    ensures code == code' && message == message'
  {
    TailLayout(code, message);
    TailLayout(code', message');
    assert |Itoa(code)| == |Itoa(code')|;
    AtoiOfItoa(code);
    AtoiOfItoa(code');
    var rest := Tail(code, message)[13 + |Itoa(code)|..];
    assert rest != "" ==> rest[2..] == message && rest[2..] == message';
  }

  /** A tail opens with a space and a parenthesis. */
  predicate OpensAt(t: string, k: nat) {
    k + 1 < |t| && t[k] == ' ' && t[k + 1] == '('
  }

  lemma OpeningIsUnique(k: nat)
    requires 0 < k < 11
    ensures " (exit code "[k] != ' ' || " (exit code "[k + 1] != '('
  {
  }

  lemma NotInOpening(t: string, k: nat)
    requires 0 < k < 11 && |t| >= 12 && t[..12] == " (exit code "
    ensures !OpensAt(t, k)
  {
    OpeningIsUnique(k);
    assert t[k] == t[..12][k] && t[k + 1] == t[..12][k + 1];
  }

  lemma NotInCode(t: string, d: string, k: nat)
    requires d != "" && |t| >= 12 + |d| && t[12..12 + |d|] == d && forall i | 0 <= i < |d| :: IsDigit(d[i]) || d[i] == '-'
    requires 11 <= k < 12 + |d|
    ensures !OpensAt(t, k)
  {
    if k == 11 {
      assert t[12] == t[12..12 + |d|][0];
    } else {
      assert t[k] == t[12..12 + |d|][k - 12];
    }
  }

  lemma OpensOnce(code: int, message: string, k: nat)
    requires k <= 13 + |Itoa(code)|
    ensures OpensAt(Tail(code, message), k) <==> k == 0
  {
    TailLayout(code, message);
    var (t, d) := (Tail(code, message), Itoa(code));
    if k == 0 {
      assert t[0] == t[..12][0] == " (exit code "[0] && t[1] == t[..12][1] == " (exit code "[1];
    } else if k < 11 {
      NotInOpening(t, k);
    } else if k < 12 + |d| {
      NotInCode(t, d, k);
    } else if k == 13 + |d| && k < |t| {
      assert t[k] == t[k..][0] == ':';
    }
  }

  /** The reason of one text extends that of the other by `x`: how the texts can still be equal. */
  ghost predicate Absorbs(x: string, code: int, message: string, code': int, message': string) {
    message != "" && exists q :: x == ExitText("", code) + ":" + q && " " + message == q + Tail(code', message')
  }

  lemma NextTailStartsLate(x: string, code: int, message: string, code': int, message': string)
    requires x != "" && Tail(code, message) == x + Tail(code', message')
    ensures |x| > |ExitText("", code)|
  {
    OpensOnce(code', message', 0);
    var (t, t') := (Tail(code, message), Tail(code', message'));
    assert t[|x|] == t'[0] && t[|x| + 1] == t'[1];
    assert |ExitText("", code)| == 13 + |Itoa(code)|;
    if |x| <= 13 + |Itoa(code)| {
      OpensOnce(code, message, |x|);
    }
  }

  /** If a text that continues with a colon also splits after that colon, the colon is part of the split. */
  lemma SplitAfterColon(e: string, rest: string, x: string, y: string)
    requires e + ":" + rest == x + y && |x| > |e|
    ensures var q := x[|e| + 1..]; x == e + ":" + q && rest == q + y
  {
    var (s, q) := (e + ":" + rest, x[|e| + 1..]);
    assert x == s[..|x|] && y == s[|x|..];
    assert rest == s[|e| + 1..];
  }

  lemma TailAbsorbs(x: string, code: int, message: string, code': int, message': string)
    requires x != "" && Tail(code, message) == x + Tail(code', message')
    ensures Absorbs(x, code, message, code', message')
  {
    var e := ExitText("", code);
    NextTailStartsLate(x, code, message, code', message');
    assert message != "";
    assert Tail(code, message) == e + ":" + (" " + message);
    SplitAfterColon(e, " " + message, x, Tail(code', message'));
    var q := x[|e| + 1..];
    assert x == e + ":" + q && " " + message == q + Tail(code', message');
  }

  lemma Regroup(e: string, q: string, y: string)
    ensures e + ":" + (q + y) == (e + ":" + q) + y
  {
  }

  lemma AbsorbedTail(x: string, code: int, message: string, code': int, message': string)
    requires Absorbs(x, code, message, code', message')
    ensures Tail(code, message) == x + Tail(code', message')
  {
    var e := ExitText("", code);
    var q :| x == e + ":" + q && " " + message == q + Tail(code', message');
    assert Tail(code, message) == e + ":" + (" " + message);
    Regroup(e, q, Tail(code', message'));
  }

  /** When two exit messages are the same text, for all reasons, codes and messages. With reasons of equal
      length the parts are equal; otherwise the longer reason has swallowed the whole text of the
      shorter one up to the colon, and the rest of it is the start of that one's message. */
  lemma SameTextExactly(reason: string, code: int32, message: string, reason': string, code': int32, message': string)
    requires |reason| <= |reason'|
    ensures ExitMessage(reason, code, message) == ExitMessage(reason', code', message') <==>
      if |reason| == |reason'| then reason == reason' && code == code' && message == message'
      else reason < reason' && Absorbs(reason'[|reason|..], code, message, code', message')
  {
    ReasonThenTail(reason, code, message);
    ReasonThenTail(reason', code', message');
    var (s, s', n) := (ExitMessage(reason, code, message), ExitMessage(reason', code', message'), |reason|);
    var x := reason'[n..];
    assert s[..n] == reason && s[n..] == Tail(code, message);
    assert s'[..n] == reason'[..n] && s'[n..] == x + Tail(code', message');
    assert s == s' <==> reason == reason'[..n] && Tail(code, message) == x + Tail(code', message');
    if x == "" {
      assert reason'[..n] == reason' && x + Tail(code', message') == Tail(code', message');
      if Tail(code, message) == Tail(code', message') {
        TailDecodes(code, message, code', message');
      }
    } else if Tail(code, message) == x + Tail(code', message') {
      TailAbsorbs(x, code, message, code', message');
    } else if Absorbs(x, code, message, code', message') {
      AbsorbedTail(x, code, message, code', message');
    }
  }

  /** A text without message whose reason has no colon is produced by its own parts only. */
  lemma ExitMessageDecodes(reason: string, code: int32, message: string, reason': string, code': int32)
    requires ':' !in reason'
    ensures ExitMessage(reason, code, message) == ExitMessage(reason', code', "")
       <==> message == "" && reason == reason' && code == code'
  {
    if |reason| <= |reason'| {
      SameTextExactly(reason, code, message, reason', code', "");
      var x := reason'[|reason|..];
      if Absorbs(x, code, message, code', "") {
        assert x[|ExitText("", code)|] in reason';
      }
    } else {
      SameTextExactly(reason', code', "", reason, code, message);
    }
  }

  /** The container name ends at the first space behind the opening words. */
  lemma NameEnds(a: string, b: string, c: string)
    requires ' ' !in a
    ensures var (s, n) := (WaitingMessage(a, b, c), 18 + |a|);
      && n + 25 <= |s| && s[18..n] == a && s[n] == ' ' && (forall i | 18 <= i < n :: s[i] != ' ')
      && s[n + 25..] == b + ": " + c
  {
    var s := WaitingMessage(a, b, c);
    assert s == "Pod failed before " + a + " container starts due to " + (b + ": " + c);
    assert s[18..18 + |a|] == a;
    forall i | 18 <= i < 18 + |a|
      ensures s[i] != ' '
    {
      assert s[i] == a[i - 18];
    }
  }

  /** From the text of a container that never started, its name, which has no space, can be read back, and so can
      all that follows. */
  lemma WaitingTextNames(a: string, b: string, c: string, a': string, b': string, c': string)
    requires ' ' !in a && ' ' !in a'
    ensures WaitingMessage(a, b, c) == WaitingMessage(a', b', c') <==> a == a' && b + ": " + c == b' + ": " + c'
  {
    NameEnds(a, b, c);
    NameEnds(a', b', c');
    var opening := "Pod failed before ";
    assert WaitingMessage(a, b, c) == opening + a + " container starts due to " + (b + ": " + c);
    assert WaitingMessage(a', b', c') == opening + a' + " container starts due to " + (b' + ": " + c');
  }

  /** The text that marks a re-trigger is produced by exactly one termination record ... */
  lemma KilledTextExactly(reason: string, code: int32, message: string)
    ensures ExitMessage(reason, code, message) == EXIT_CODE_143_ERROR
       <==> reason == "Error" && code == 143 && message == ""
  {
    assert Itoa(143) == "143";
    assert ExitMessage("Error", 143, "") == EXIT_CODE_143_ERROR;
    ExitMessageDecodes(reason, code, message, "Error", 143);
  }

  /** ... and by neither of the other two formats. */
  lemma OtherTextsDiffer(a: string, b: string, c: string)
    ensures WaitingMessage(a, b, c) != EXIT_CODE_143_ERROR
    ensures UnexpectedPhaseMessage(a, b) != EXIT_CODE_143_ERROR
  {
    assert WaitingMessage(a, b, c)[0] == 'P' && UnexpectedPhaseMessage(a, b)[0] == 'U';
  }
}
