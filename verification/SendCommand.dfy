/** The `send` command, from the text of a Matrix message to recipients, subject and body
    (internal/bot/command.go, internal/utils/command.go). */
module SendCommand {
  import opened Text

  const MIN_SEND_COMMAND_PARTS := 3

  /** What `ParseSend` gives back; `OutOfRange` is the run-time panic of an index past the end. */
  datatype Parsed = Details(to: string, subject: string, body: string) | InvalidArgs | OutOfRange

  /** strings.Replace(message, prefix, "", 1) */
  function CutFirst(message: string, prefix: string): string {
    match Index(message, prefix)
    case Some(i) => message[..i] + message[i + |prefix|..]
    case None => message
  }

  function ParseCommand(prefix: string, message: string, toLower: bool): Option<seq<string>> {
    if message == "" then None
    else if !Contains(message, prefix) then None
    else
      var rest := CutFirst(message, prefix);
      Some(Split(TrimSpace(if toLower then ToLower(rest) else rest), ' '))
  }

  function ParseSend(words: seq<string>): Parsed {
    var message := Join(words, ' ');
    var lines := Split(message, '\n');
    if |lines| < MIN_SEND_COMMAND_PARTS then InvalidArgs
    else
      var first := Split(lines[0], ' ');
      if |first| < 2 then OutOfRange
      else Details(first[1], lines[1], Join(lines[2..], '\n'))
  }

  /** The command word that `handle` dispatches on, if the message is a command at all. */
  function CommandOf(prefix: string, text: string): Option<string> {
    match ParseCommand(prefix, TrimSpace(text), true)
    case Some(words) => if |words| > 0 then Some(words[0]) else None
    case None => None
  }

  /** What `getSendDetails` reads from the same message, this time untrimmed and in its own case. */
  function Requested(prefix: string, text: string): Parsed {
    ParseSend(match ParseCommand(prefix, text, false) case Some(words) => words case None => [])
  }

  // ---------- the two readings agree

  /** How much white space a text begins with. */
  function Lead(text: string): nat {
    TrimLeftKeepsTail(text);
    |text| - |TrimLeft(text)|
  }

  /** What is left of a message once its prefix is cut out. */
  function Rest(prefix: string, text: string): string { TrimSpace(CutFirst(text, prefix)) }

  /** The dispatcher, which trims the message first, and `getSendDetails`, which does not, cut the prefix out at
      the same place. */
  predicate SameCut(prefix: string, text: string) {
    && Contains(TrimSpace(text), prefix)
    && Index(text, prefix) == Some(Lead(text) + Index(TrimSpace(text), prefix).value)
  }

  lemma OccursOutside(a: string, t: string, b: string, p: string, j: nat)
    requires OccursAt(t, p, j)
    ensures OccursAt(a + t + b, p, |a| + j)
  {
    assert (a + t + b)[|a| + j..|a| + j + |p|] == t[j..j + |p|];
  }

  lemma OccursInside(a: string, t: string, b: string, p: string, k: nat)
    requires |a| <= k && k + |p| <= |a| + |t| && OccursAt(a + t + b, p, k)
    ensures OccursAt(t, p, k - |a|)
  {
    assert t[k - |a|..k - |a| + |p|] == (a + t + b)[k..k + |p|];
  }

  /** If the trimmed text has the prefix, so has the text: at the same place, or earlier, and then the prefix
      begins in the white space before the text. */
  lemma CutPlaces(a: string, t: string, b: string, p: string)
    requires Index(t, p).Some?
    ensures var k := Index(a + t + b, p);
      k.Some? && (k.value == |a| + Index(t, p).value || k.value < |a|)
  {
    hide IndexFrom, OccursAt;
    var j := Index(t, p).value;
    OccursOutside(a, t, b, p, j);
    var k := Index(a + t + b, p).value;
    if |a| <= k && k < |a| + j {
      InRange(t, p, j);
      OccursInside(a, t, b, p, k);
    }
  }

  lemma InRange(t: string, p: string, j: nat)
    requires OccursAt(t, p, j)
    ensures j + |p| <= |t|
  {}

  lemma CutFirstAt(s: string, p: string)
    ensures Index(s, p).Some? ==>
      Index(s, p).value + |p| <= |s| && CutFirst(s, p) == s[..Index(s, p).value] + s[Index(s, p).value + |p|..]
    ensures Index(s, p).None? ==> CutFirst(s, p) == s
  {}

  lemma CutHead(p: string, t: string)
    ensures Contains(p + t, p) && CutFirst(p + t, p) == t
  {
    assert OccursAt(p + t, p, 0);
    assert Index(p + t, p) == Some(0);
    assert (p + t)[|p|..] == t;
  }

  lemma CutBetween(a: string, t: string, b: string, j: nat, k: nat)
    requires j <= k <= |t|
    ensures var s := a + t + b; s[..|a| + j] + s[|a| + k..] == a + (t[..j] + t[k..]) + b
  {
    var s := a + t + b;
    assert s[..|a| + j] == a + t[..j];
    assert s[|a| + k..] == t[k..] + b;
  }

  lemma SameCutFrames(a: string, t: string, b: string, p: string)
    requires Index(t, p).Some? && Index(a + t + b, p) == Some(|a| + Index(t, p).value)
    ensures CutFirst(a + t + b, p) == a + CutFirst(t, p) + b
  {
    CutFirstAt(t, p);
    CutFirstAt(a + t + b, p);
    hide CutFirst, Index;
    var j := Index(t, p).value;
    CutBetween(a, t, b, j, j + |p|);
  }

  /** Cutting at the same place, the two readings have the same words up to case. */
  lemma SameCutReads(prefix: string, text: string)
    requires SameCut(prefix, text)
    ensures TrimSpace(ToLower(CutFirst(TrimSpace(text), prefix))) == ToLower(Rest(prefix, text))
  {
    var t := TrimSpace(text);
    LowerTrimSpace(CutFirst(t, prefix));
    var a, b := TrimSpaceFrame(text);
    SameCutFrames(a, t, b, prefix);
    hide TrimSpace, CutFirst, Index, ToLower;
    TrimSpaceSkips(a, CutFirst(t, prefix), b);
  }

  /** A prefix that does not begin with white space. */
  predicate Flush(prefix: string) { prefix == "" || !IsSpace(prefix[0]) }

  lemma FlushCutsSame(prefix: string, text: string)
    requires prefix != "" && !IsSpace(prefix[0]) && Contains(TrimSpace(text), prefix)
    ensures SameCut(prefix, text)
  {
    var t := TrimSpace(text);
    var a, b := TrimSpaceFrame(text);
    CutPlaces(a, t, b, prefix);
    var k := Index(text, prefix).value;
    assert text[k] == prefix[0] by { assert text[k..k + |prefix|][0] == prefix[0]; }
    assert forall i :: 0 <= i < |a| ==> text[i] == a[i] && IsSpace(text[i]);
  }

  /** For a prefix that does not begin with white space, the dispatcher, which trims and lower-cases the message, and
      `getSendDetails`, which does neither, read the same words up to case. */
  lemma ReadingsAgree(prefix: string, text: string)
    requires Flush(prefix) && Contains(TrimSpace(text), prefix)
    ensures Contains(text, prefix)
    ensures TrimSpace(ToLower(CutFirst(TrimSpace(text), prefix))) == ToLower(Rest(prefix, text))
  {
    if prefix == "" {
      var t := TrimSpace(text);
      LowerTrimSpace(t);
      CutHead("", text);
      CutHead("", t);
      assert "" + text == text && "" + t == t;
      TrimSpaceTrims(text);
      TrimSpaceFixed(t);
    } else {
      FlushCutsSame(prefix, text);
      SameCutReads(prefix, text);
    }
  }

  // ---------- no index out of range

  lemma {:induction false} SplitHead(s: string, sep: char)
    ensures var h := Split(s, sep)[0]; h <= s && (h == s || s[|h|] == sep)
  {
    if s != "" {
      SplitHead(s[1..], sep);
      assert s == [s[0]] + s[1..];
    }
  }

  lemma SendHead(y: string)
    requires Split(ToLower(y), ' ')[0] == "send"
    ensures |y| >= 4 && ' ' !in y[..4] && '\n' !in y[..4]
    ensures |y| > 4 ==> y[4] == ' '
  {
    var l := ToLower(y);
    SplitHead(l, ' ');
    assert l[..4] == "send";
    forall i | 0 <= i < 4
      ensures y[i] != ' ' && y[i] != '\n'
    {
      assert LowerChar(y[i]) == "send"[i];
    }
    if |y| > 4 { assert LowerChar(y[4]) == ' '; }
  }

  lemma {:induction false} HeadAtLeast(s: string, sep: char, k: nat)
    requires k <= |s| && sep !in s[..k]
    ensures |Split(s, sep)[0]| >= k
  {
    if k > 0 {
      assert s[..k][0] == s[0];
      assert s[1..][..k - 1] == s[..k][1..];
      HeadAtLeast(s[1..], sep, k - 1);
    }
  }

  /** A text whose first word is "send" has a second word on its first line if it has other lines. */
  lemma SendHasArgument(y: string)
    requires Split(ToLower(y), ' ')[0] == "send"
    ensures var lines := Split(y, '\n'); |lines| == 1 || |Split(lines[0], ' ')| >= 2
  {
    SendHead(y);
    if |y| == 4 {
      assert y == y[..4];
      SplitPieces(y, '\n');
    } else {
      assert y[..5] == y[..4] + [' '];
      HeadAtLeast(y, '\n', 5);
      SplitHead(y, '\n');
      var h := Split(y, '\n')[0];
      assert h[4] == ' ';
      SplitPieces(h, ' ');
    }
  }

  /** Three lines, of which the first is a single word: what `ParseSend` cannot index. */
  predicate Unargued(y: string) { |Split(y, '\n')| >= 3 && ' ' !in Split(y, '\n')[0] }

  lemma ParseSendExact(y: string)
    ensures var r := ParseSend(Split(y, ' '));
      && (r == OutOfRange <==> Unargued(y))
      && (r == InvalidArgs <==> |Split(y, '\n')| < 3)
  {
    JoinOfSplit(y, ' ');
    SplitPieces(Split(y, '\n')[0], ' ');
  }

  lemma RequestedIs(prefix: string, text: string)
    requires text != "" && Contains(text, prefix)
    ensures Requested(prefix, text) == ParseSend(Split(Rest(prefix, text), ' '))
  {
    hide Split, ParseSend;
  }

  lemma CommandIs(prefix: string, text: string)
    requires TrimSpace(text) != "" && Contains(TrimSpace(text), prefix)
    ensures CommandOf(prefix, text) == Some(Split(TrimSpace(ToLower(CutFirst(TrimSpace(text), prefix))), ' ')[0])
  {
    hide CutFirst, ToLower, TrimSpace, Index;
  }

  lemma DispatchedSend(prefix: string, text: string)
    requires CommandOf(prefix, text) == Some("send")
    ensures TrimSpace(text) != "" && text != "" && Contains(TrimSpace(text), prefix)
    ensures Split(TrimSpace(ToLower(CutFirst(TrimSpace(text), prefix))), ' ')[0] == "send"
  {
    hide Split, CutFirst, ToLower;
    TrimSpaceTrims(text);
  }

  /** For every message dispatched as "send" with a prefix that does not begin with white space, `ParseSend` never
      indexes out of range, and it reads the details exactly when the text after the prefix has three lines. */
  lemma SendNeverOutOfRange(prefix: string, text: string)
    requires Flush(prefix)
    requires CommandOf(prefix, text) == Some("send")
    ensures Requested(prefix, text) != OutOfRange
    ensures Requested(prefix, text).Details? <==> |Split(Rest(prefix, text), '\n')| >= 3
  {
    DispatchedSend(prefix, text);
    ReadingsAgree(prefix, text);
    RequestedIs(prefix, text);
    hide CommandOf, Requested, Rest, CutFirst, TrimSpace;
    SendHasArgument(Rest(prefix, text));
    SplitPieces(Split(Rest(prefix, text), '\n')[0], ' ');
    ParseSendExact(Rest(prefix, text));
  }

  lemma LowerFixed(s: string)
    requires forall i :: 0 <= i < |s| ==> !('A' <= s[i] <= 'Z')
    ensures ToLower(s) == s
  {}

  // ---------- round trip

  function Composed(prefix: string, to: string, subject: string, body: string): string {
    prefix + " send " + to + "\n" + subject + "\n" + body
  }

  predicate EndsInText(body: string) { body != "" && !IsSpace(body[|body| - 1]) }

  /** Reading the details back gives the first line's second word and the rest of the text unchanged. */
  lemma ParseSendOf(to: string, subject: string, body: string)
    requires ' ' !in to && '\n' !in to && '\n' !in subject
    ensures ParseSend(Split("send " + to + "\n" + subject + "\n" + body, ' ')) == Details(to, subject, body)
  {
    var first := "send " + to;
    var y := "send " + to + "\n" + subject + "\n" + body;
    JoinOfSplit(y, ' ');
    assert y == first + ['\n'] + (subject + ['\n'] + body);
    assert '\n' !in first;
    SplitFirst(first, subject + ['\n'] + body, '\n');
    SplitFirst(subject, body, '\n');
    JoinOfSplit(body, '\n');
    var lines := Split(y, '\n');
    assert lines == [first, subject] + Split(body, '\n');
    assert lines[2..] == Split(body, '\n');
    assert first == "send" + [' '] + to;
    SplitFirst("send", to, ' ');
    SplitPieces(to, ' ');
  }

  /** What `ParseSend` returns is a cut of the text, which ends with the body. */
  lemma DetailsEndTheText(y: string)
    requires ParseSend(Split(y, ' ')).Details?
    ensures var d := ParseSend(Split(y, ' '));
      && (exists line :: y == line + "\n" + d.subject + "\n" + d.body)
      && (Trimmed(y) ==> EndsInText(d.body))
  {
    JoinOfSplit(y, ' ');
    JoinOfSplit(y, '\n');
    var lines := Split(y, '\n');
    assert lines[1..][1..] == lines[2..];
    assert Join(lines[1..], '\n') == lines[1] + ['\n'] + Join(lines[2..], '\n');
    var body := Join(lines[2..], '\n');
    assert y == lines[0] + "\n" + lines[1] + "\n" + body;
    assert y[|y| - 1] == if body == "" then '\n' else body[|body| - 1];
  }

  lemma ComposedSum(prefix: string, to: string, subject: string, body: string)
    ensures Composed(prefix, to, subject, body) == prefix + (" " + ("send " + to + "\n" + subject + "\n" + body) + "")
  {
    var rest := to + "\n" + subject + "\n" + body;
    assert " send " == " " + "send ";
    assert Composed(prefix, to, subject, body) == prefix + (" send " + rest);
    assert "send " + to + "\n" + subject + "\n" + body == "send " + rest;
  }

  lemma RestOfComposed(prefix: string, to: string, subject: string, body: string)
    ensures Rest(prefix, Composed(prefix, to, subject, body)) ==
            TrimSpace("send " + to + "\n" + subject + "\n" + body)
    ensures Contains(Composed(prefix, to, subject, body), prefix)
  {
    hide Composed, TrimSpace, CutFirst, Index;
    var y := "send " + to + "\n" + subject + "\n" + body;
    ComposedSum(prefix, to, subject, body);
    CutHead(prefix, " " + y + "");
    TrimSpaceSkips(" ", y, "");
  }

  /** The details sent are the details written, exactly when the body is not empty and does not end in white
      space; `to` has neither spaces nor line ends, `subject` no line ends. */
  lemma SendRoundTrip(prefix: string, to: string, subject: string, body: string)
    requires ' ' !in to && '\n' !in to && '\n' !in subject
    ensures Requested(prefix, Composed(prefix, to, subject, body)) == Details(to, subject, body) <==> EndsInText(body)
  {
    var text := Composed(prefix, to, subject, body);
    var y := "send " + to + "\n" + subject + "\n" + body;
    RestOfComposed(prefix, to, subject, body);
    assert ParseCommand(prefix, text, false) == Some(Split(Rest(prefix, text), ' '));
    if EndsInText(body) {
      assert y[0] == 's' && y[|y| - 1] == body[|body| - 1];
      TrimSpaceFixed(y);
      ParseSendOf(to, subject, body);
    } else {
      TrimSpaceTrims(y);
      if Requested(prefix, text).Details? { DetailsEndTheText(TrimSpace(y)); }
    }
  }

  lemma LowerSend(tail: string)
    ensures ToLower("send" + [' '] + tail) == "send" + [' '] + ToLower(tail)
  {}

  lemma ComposedWord(to: string, subject: string, body: string)
    ensures Split(ToLower("send " + to + "\n" + subject + "\n" + body), ' ')[0] == "send"
  {
    var tail := to + "\n" + subject + "\n" + body;
    assert "send " + to + "\n" + subject + "\n" + body == "send" + [' '] + tail;
    LowerSend(tail);
    hide Split, ToLower;
    SplitFirst("send", ToLower(tail), ' ');
  }

  /** Such a message is dispatched as "send". */
  lemma ComposedIsSend(prefix: string, to: string, subject: string, body: string)
    requires Flush(prefix) && ' ' !in to && '\n' !in to && '\n' !in subject && EndsInText(body)
    ensures CommandOf(prefix, Composed(prefix, to, subject, body)) == Some("send")
  {
    var text := Composed(prefix, to, subject, body);
    var y := "send " + to + "\n" + subject + "\n" + body;
    ComposedTrimmed(prefix, to, subject, body);
    RestOfComposed(prefix, to, subject, body);
    TrimSpaceFixed(y);
    ReadingsAgree(prefix, text);
    CommandIs(prefix, text);
    ComposedWord(to, subject, body);
    hide *;
  }

  lemma ComposedTrimmed(prefix: string, to: string, subject: string, body: string)
    requires Flush(prefix) && EndsInText(body)
    ensures var text := Composed(prefix, to, subject, body);
      TrimSpace(text) != "" && Contains(TrimSpace(text), prefix)
    ensures Trimmed("send " + to + "\n" + subject + "\n" + body)
  {
    var text := Composed(prefix, to, subject, body);
    var y := "send " + to + "\n" + subject + "\n" + body;
    assert y[0] == 's' && y[|y| - 1] == body[|body| - 1];
    assert text[|text| - 1] == body[|body| - 1];
    if prefix == "" {
      TrimSpaceKeeps(text, body[|body| - 1]);
      assert OccursAt(TrimSpace(text), prefix, 0);
    } else {
      assert text[0] == prefix[0];
      TrimSpaceFixed(text);
      RestOfComposed(prefix, to, subject, body);
    }
  }
}
