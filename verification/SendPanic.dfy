/** When reading a message dispatched as "send" indexes out of range: the dispatcher trims the message before it
    cuts the prefix out, `getSendDetails` does not (internal/bot/command.go, internal/utils/command.go). */
module SendPanic {
  import opened Text
  import opened SendCommand

  /** The white space that a prefix begins with. */
  function Margin(p: string): string {
    TrimLeftKeepsTail(p);
    p[..|p| - |TrimLeft(p)|]
  }

  lemma MarginFacts(p: string)
    ensures p == Margin(p) + TrimLeft(p) && Blank(Margin(p))
    ensures TrimLeft(p) != "" ==> !IsSpace(TrimLeft(p)[0])
  {
    hide TrimLeft, IsSpace, Blank;
    TrimLeftKeepsTail(p);
  }

  /** An occurrence that begins in the white space before a text covers only white space of the prefix there: the
      rest of the prefix, if any, begins exactly where the text does. */
  lemma EarlyOccurrence(a: string, t: string, b: string, w: string, q: string, k: nat)
    requires Blank(a) && t != "" && !IsSpace(t[0]) && Blank(w) && (q != "" ==> !IsSpace(q[0]))
    requires k < |a| && OccursAt(a + t + b, w + q, k)
    ensures k + |w| <= |a| && (q != "" ==> k + |w| == |a|)
  {
    var s := a + t + b;
    var o := s[k..k + |w + q|];
    assert o == w + q;
    forall i | k <= i < k + |w|
      ensures IsSpace(s[i])
    {
      assert o[i - k] == s[i] && o[i - k] == w[i - k];
    }
    assert s[|a|] == t[0];
    if q != "" { assert o[|w|] == q[0] && o[|w|] == s[k + |w|]; }
  }

  lemma TextPart(a: string, t: string, b: string, q: string)
    requires |q| <= |t| && OccursAt(a + t + b, q, |a|)
    ensures q <= t
  {
    assert (a + t + b)[|a|..|a| + |q|] == t[..|q|];
  }

  lemma OccursTail(s: string, w: string, q: string, k: nat)
    requires OccursAt(s, w + q, k)
    ensures OccursAt(s, q, k + |w|)
  {
    assert s[k + |w|..k + |w| + |q|] == s[k..k + |w + q|][|w|..];
  }

  /** Cutting out such an occurrence leaves the text without the prefix's own text. */
  lemma EarlyCutLeaves(a: string, t: string, b: string, w: string, q: string, k: nat)
    requires Blank(a) && Blank(b) && k < |a| && k + |w| <= |a| && q <= t
    requires q != "" ==> k + |w| == |a|
    ensures k + |w + q| <= |a + t + b|
    ensures var s := a + t + b; TrimSpace(s[..k] + s[k + |w + q|..]) == TrimSpace(t[|q|..])
  {
    hide TrimSpace;
    var s := a + t + b;
    assert s[..k] == a[..k];
    if q == "" {
      assert s[k + |w + q|..] == a[k + |w|..] + t + b;
      assert s[..k] + s[k + |w + q|..] == (a[..k] + a[k + |w|..]) + t + b;
      TrimSpaceSkips(a[..k] + a[k + |w|..], t, b);
      assert t[|q|..] == t;
    } else {
      assert s[k + |w + q|..] == t[|q|..] + b;
      assert s[..k] + s[k + |w + q|..] == a[..k] + t[|q|..] + b;
      TrimSpaceSkips(a[..k], t[|q|..], b);
    }
  }

  lemma EarlyCutAt(a: string, t: string, b: string, p: string)
    requires Blank(a) && Blank(b) && t != "" && !IsSpace(t[0]) && |p| <= |t|
    requires Index(a + t + b, p).Some? && Index(a + t + b, p).value < |a|
    ensures TrimLeft(p) <= t && TrimSpace(CutFirst(a + t + b, p)) == TrimSpace(t[|TrimLeft(p)|..])
  {
    hide TrimSpace, TrimLeft, CutFirst, Index, Margin, Blank, OccursAt, IsSpace;
    var k := Index(a + t + b, p).value;
    var w, q := Margin(p), TrimLeft(p);
    MarginFacts(p);
    CutFirstAt(a + t + b, p);
    IndexOccurs(a + t + b, p);
    EarlyOccurrence(a, t, b, w, q, k);
    if q != "" {
      OccursTail(a + t + b, w, q, k);
      TextPart(a, t, b, q);
    }
    EarlyCutLeaves(a, t, b, w, q, k);
  }

  lemma NotSameIsEarly(prefix: string, text: string) returns (a: string, b: string)
    requires prefix != "" && Contains(TrimSpace(text), prefix) && !SameCut(prefix, text)
    ensures text == a + TrimSpace(text) + b && Blank(a) && Blank(b)
    ensures Index(text, prefix).Some? && Index(text, prefix).value < |a|
  {
    a, b := TrimSpaceFrame(text);
    hide IndexFrom, TrimSpace, TrimLeft, Blank;
    CutPlaces(a, TrimSpace(text), b, prefix);
  }

  /** Where the two readings cut at different places, `getSendDetails` reads the trimmed text without the part of the
      prefix that is not white space. */
  lemma EarlyCut(prefix: string, text: string)
    requires prefix != "" && Contains(TrimSpace(text), prefix) && !SameCut(prefix, text)
    ensures TrimLeft(prefix) <= TrimSpace(text)
    ensures Rest(prefix, text) == TrimSpace(TrimSpace(text)[|TrimLeft(prefix)|..])
  {
    TrimSpaceTrims(text);
    Fits(TrimSpace(text), prefix);
    hide TrimSpace, TrimLeft, CutFirst, Index, Blank, SameCut;
    var a, b := NotSameIsEarly(prefix, text);
    EarlyCutAt(a, TrimSpace(text), b, prefix);
  }

  lemma IndexOccurs(s: string, p: string)
    requires Index(s, p).Some?
    ensures OccursAt(s, p, Index(s, p).value)
  {}

  lemma Fits(t: string, p: string)
    requires Contains(t, p)
    ensures |p| <= |t|
  {}

  /** The exact condition, message by message: reading a message dispatched as "send" indexes out of range if and only
      if the prefix is first found in the white space before the message, and what the message goes on with after the
      prefix's own text has three lines of which the first is a single word. */
  lemma SendPanicExact(prefix: string, text: string)
    requires CommandOf(prefix, text) == Some("send")
    ensures Requested(prefix, text) == OutOfRange <==>
      && !Flush(prefix)
      && !SameCut(prefix, text)
      && TrimLeft(prefix) <= TrimSpace(text)
      && Unargued(TrimSpace(TrimSpace(text)[|TrimLeft(prefix)|..]))
  {
    DispatchedSend(prefix, text);
    if Flush(prefix) {
      SendNeverOutOfRange(prefix, text);
    } else {
      var a, b := TrimSpaceFrame(text);
      CutPlaces(a, TrimSpace(text), b, prefix);
      RequestedIs(prefix, text);
      ParseSendExact(Rest(prefix, text));
      if SameCut(prefix, text) {
        SameCutReads(prefix, text);
        hide CommandOf, Requested, Rest, CutFirst, TrimSpace, SameCut;
        SendHasArgument(Rest(prefix, text));
        SplitPieces(Split(Rest(prefix, text), '\n')[0], ' ');
      } else {
        hide CommandOf, Requested, Rest, CutFirst, TrimSpace, SameCut, Unargued, TrimLeft;
        EarlyCut(prefix, text);
      }
    }
  }

  // ---------- prefixes of white space

  /** A line ends before the first space. */
  predicate EndsLineFirst(s: string) { exists k :: 0 <= k < |s| && s[k] == '\n' && ' ' !in s[..k] }

  lemma UnarguedEndsLine(y: string)
    requires Unargued(y)
    ensures EndsLineFirst(y)
  {
    SplitHead(y, '\n');
    SplitPieces(y, '\n');
    var h := Split(y, '\n')[0];
    assert y[..|h|] == h;
  }

  lemma SendSpaceFirst(y: string)
    requires Split(ToLower(y), ' ')[0] == "send"
    ensures !EndsLineFirst(y)
  {
    SendHead(y);
    assert forall i :: 0 <= i < 4 ==> y[i] == y[..4][i];
    forall k | 0 <= k < |y| && y[k] == '\n'
      ensures ' ' in y[..k]
    {
      assert k >= 4;
      assert y[..k][4] == ' ';
    }
  }

  /** If a text ends its first line before a space, so does a part of it or what is left without that part. */
  lemma LineEndInPart(u: string, p: string, r: string)
    requires EndsLineFirst(u + p + r)
    ensures EndsLineFirst(p) || EndsLineFirst(u + r)
  {
    var t, c := u + p + r, u + r;
    var k :| 0 <= k < |t| && t[k] == '\n' && ' ' !in t[..k];
    if k < |u| {
      assert c[k] == '\n' && c[..k] == t[..k];
    } else if k >= |u| + |p| {
      var m := k - |p|;
      assert c[m] == '\n';
      forall i | 0 <= i < m
        ensures c[..m][i] != ' '
      {
        assert c[i] == t[..k][if i < |u| then i else i + |p|];
      }
    } else {
      var m := k - |u|;
      assert p[m] == '\n';
      assert forall i :: 0 <= i < m ==> p[i] == t[..k][|u| + i];
      assert ' ' !in p[..m];
    }
  }

  /** Cutting white space out of the inside of a trimmed text leaves it trimmed. */
  lemma BlankCutTrimmed(t: string, p: string)
    requires Trimmed(t) && t != "" && Blank(p) && p != "" && Contains(t, p)
    ensures Trimmed(CutFirst(t, p))
    ensures exists u, r :: t == u + p + r && CutFirst(t, p) == u + r
  {
    CutFirstAt(t, p);
    var j := Index(t, p).value;
    var u, r := t[..j], t[j + |p|..];
    assert t == u + p + r;
    assert t[j] == p[0] && t[j + |p| - 1] == p[|p| - 1];
    assert 0 < j && j + |p| < |t|;
    assert (u + r)[0] == t[0] && (u + r)[|u + r| - 1] == t[|t| - 1];
  }

  lemma BlankPrefixPanicOnly(prefix: string, text: string)
    requires prefix != "" && Blank(prefix)
    requires CommandOf(prefix, text) == Some("send") && Requested(prefix, text) == OutOfRange
    ensures EndsLineFirst(prefix)
  {
    var t := TrimSpace(text);
    SendPanicExact(prefix, text);
    DispatchedSend(prefix, text);
    TrimSpaceTrims(text);
    TrimLeftOfBlank(prefix);
    TrimSpaceFixed(t);
    assert t[0..] == t;
    UnarguedEndsLine(t);
    BlankCutTrimmed(t, prefix);
    var c := CutFirst(t, prefix);
    LowerTrimSpace(c);
    TrimSpaceFixed(c);
    SendSpaceFirst(c);
    hide *;
    var u, r :| t == u + prefix + r && c == u + r;
    LineEndInPart(u, prefix, r);
  }

  /** The message that shows it. */
  function Witness(prefix: string): string { prefix + ("send" + prefix + " x\ny\nz") }

  lemma WitnessText(prefix: string)
    requires prefix != "" && Blank(prefix)
    ensures TrimSpace(Witness(prefix)) == "send" + prefix + " x\ny\nz"
    ensures Requested(prefix, Witness(prefix)) == ParseSend(Split("send" + prefix + " x\ny\nz", ' '))
  {
    var t := "send" + prefix + " x\ny\nz";
    assert t[0] == 's' && t[|t| - 1] == 'z';
    TrimSpaceFixed(t);
    hide TrimSpace, Split, ParseSend, CutFirst, Index;
    TrimSpaceSkips(prefix, t, "");
    assert prefix + t + "" == Witness(prefix);
    CutHead(prefix, t);
    RequestedIs(prefix, Witness(prefix));
  }

  lemma FirstInside(u: string, p: string, r: string)
    requires p != "" && IsSpace(p[0]) && (forall i :: 0 <= i < |u| ==> !IsSpace(u[i]))
    ensures Contains(u + p + r, p) && CutFirst(u + p + r, p) == u + r
  {
    var t := u + p + r;
    CutFirstAt(t, p);
    assert t[|u|..|u| + |p|] == p;
    assert OccursAt(t, p, |u|);
    var j := Index(t, p).value;
    assert t[j] == p[0] by { assert t[j..j + |p|][0] == p[0]; }
    assert forall i :: 0 <= i < |u| ==> t[i] == u[i];
    assert j == |u|;
    assert t[..j] == u && t[j + |p|..] == r;
  }

  lemma WitnessWord()
    ensures Split(TrimSpace(ToLower("send" + " x\ny\nz")), ' ')[0] == "send"
  {
    var c := "send" + " x\ny\nz";
    assert c[0] == 's' && c[|c| - 1] == 'z';
    LowerFixed(c);
    TrimSpaceFixed(c);
    hide Split, TrimSpace, ToLower;
    assert c == "send" + [' '] + "x\ny\nz";
    SplitFirst("send", "x\ny\nz", ' ');
  }

  lemma WitnessCut(prefix: string, tail: string)
    requires prefix != "" && Blank(prefix)
    ensures Contains("send" + prefix + tail, prefix) && CutFirst("send" + prefix + tail, prefix) == "send" + tail
  {
    hide CutFirst, Index;
    FirstInside("send", prefix, tail);
  }

  lemma WitnessDispatched(prefix: string)
    requires prefix != "" && Blank(prefix)
    ensures CommandOf(prefix, Witness(prefix)) == Some("send")
  {
    hide *;
    WitnessText(prefix);
    WitnessCut(prefix, " x\ny\nz");
    CommandIs(prefix, Witness(prefix));
    WitnessWord();
  }

  /** The first line of the witness is one word. */
  lemma WitnessUnargued(prefix: string)
    requires EndsLineFirst(prefix)
    ensures Unargued("send" + prefix + " x\ny\nz")
  {
    var k := FirstLineEnd(prefix);
    var h, rest := "send" + prefix[..k], prefix[k + 1..] + " x\ny\nz";
    var t := "send" + prefix + " x\ny\nz";
    assert prefix == prefix[..k] + ['\n'] + prefix[k + 1..];
    assert t == h + ['\n'] + rest;
    assert '\n' !in h && ' ' !in h;
    SplitFirst(h, rest, '\n');
    assert rest[|prefix[k + 1..]| + 2] == '\n';
    SplitPieces(rest, '\n');
  }

  lemma FirstLineEnd(s: string) returns (k: nat)
    requires EndsLineFirst(s)
    ensures k < |s| && s[k] == '\n' && ' ' !in s[..k] && '\n' !in s[..k]
  {
    SplitHead(s, '\n');
    SplitPieces(s, '\n');
    var h := Split(s, '\n')[0];
    var n :| 0 <= n < |s| && s[n] == '\n' && ' ' !in s[..n];
    k := |h|;
    assert s[..k] == h;
    assert forall i :: 0 <= i < k ==> s[i] == h[i];
    assert k <= n;
    assert forall i :: 0 <= i < k ==> s[..n][i] == h[i];
  }

  /** For a prefix of white space the panic can happen if and only if the prefix has a line end before any space: never
      for " ", but for "\n". */
  lemma BlankPrefixExact(prefix: string)
    requires prefix != "" && Blank(prefix)
    ensures (exists text :: CommandOf(prefix, text) == Some("send") && Requested(prefix, text) == OutOfRange)
      <==> EndsLineFirst(prefix)
  {
    hide CommandOf, Requested;
    if text :| CommandOf(prefix, text) == Some("send") && Requested(prefix, text) == OutOfRange {
      BlankPrefixPanicOnly(prefix, text);
    }
    if EndsLineFirst(prefix) {
      WitnessText(prefix);
      WitnessDispatched(prefix);
      WitnessUnargued(prefix);
      ParseSendExact("send" + prefix + " x\ny\nz");
      assert Requested(prefix, Witness(prefix)) == OutOfRange;
    }
  }

  // ---------- prefixes that go on with the beginning of the command word

  /** A prefix of white space and a text is found only where a text begins after enough white space. */
  lemma OnlyAtText(u: string, v: string, w: string, q: string)
    requires (forall i :: 0 <= i < |u| ==> !IsSpace(u[i])) && Blank(v) && Blank(w) && w != "" && q != ""
    requires !IsSpace(q[0])
    ensures Contains(u + v + (w + q), w + q) && CutFirst(u + v + (w + q), w + q) == u + v
  {
    var p, n := w + q, |u + v|;
    var t := u + v + p;
    assert t[n..n + |p|] == p;
    assert OccursAt(t, p, n);
    var j := Index(t, p).value;
    var o := t[j..j + |p|];
    assert o[0] == t[j] && o[0] == w[0];
    assert o[|w|] == t[j + |w|] && o[|w|] == q[0];
    assert j >= |u|;
    assert forall i :: |u| <= i < n + |w| ==> IsSpace(t[i]);
    assert j == n;
    CutFirstAt(t, p);
  }

  lemma ReadAfterPrefix(p: string, y: string)
    requires p != "" && Trimmed(y)
    ensures Requested(p, p + y) == ParseSend(Split(y, ' '))
  {
    CutHead(p, y);
    TrimSpaceFixed(y);
    hide TrimSpace, CutFirst, Contains, Requested;
    RequestedIs(p, p + y);
  }

  lemma HeadUnargued(l: string, p: string)
    requires ' ' !in l && '\n' !in l
    ensures Unargued(l + "\n\n" + p)
  {
    var y := l + "\n\n" + p;
    assert y == l + ['\n'] + ("" + ['\n'] + p);
    SplitFirst(l, "" + ['\n'] + p, '\n');
    SplitFirst("", p, '\n');
  }

  /** What is read of such a message is the rest of the word, alone on its line. */
  lemma HeadRead(l: string, p: string)
    requires l != "" && ' ' !in l && '\n' !in l && !IsSpace(l[0]) && p != "" && !IsSpace(p[|p| - 1])
    ensures Requested(p, p + (l + "\n\n" + p)) == OutOfRange
  {
    var y := l + "\n\n" + p;
    assert y[0] == l[0] && y[|y| - 1] == p[|p| - 1];
    hide Requested, ParseSend, Split, Unargued;
    ReadAfterPrefix(p, y);
    HeadUnargued(l, p);
    ParseSendExact(y);
  }

  lemma HeadDispatched(w: string, q: string, text: string)
    requires w != "" && Blank(w) && q != "" && !IsSpace(q[0]) && !IsSpace(q[|q| - 1])
    requires text == w + ("send" + "\n\n" + (w + q))
    ensures CommandOf(w + q, text) == Some("send")
  {
    var t := "send" + "\n\n" + (w + q);
    assert t[0] == 's' && t[|t| - 1] == q[|q| - 1];
    TrimSpaceFixed(t);
    SendIsText();
    hide TrimSpace, CutFirst, Split, ToLower, CommandOf, Contains;
    TrimSpaceSkips(w, t, "");
    assert w + t + "" == text;
    OnlyAtText("send", "\n\n", w, q);
    CommandIs(w + q, text);
  }

  lemma SendIsText()
    ensures forall i :: 0 <= i < |"send"| ==> !IsSpace("send"[i])
    ensures Blank("\n\n")
    ensures Split(TrimSpace(ToLower("send" + "\n\n")), ' ')[0] == "send"
  {
    LowerFixed("send" + "\n\n");
    assert "" + "send" + "\n\n" == "send" + "\n\n";
    TrimSpaceSkips("", "send", "\n\n");
    TrimSpaceFixed("send");
    SplitPieces("send", ' ');
  }

  lemma HeadOfSend(n: nat)
    requires 1 <= n <= 3
    ensures var q, l := "send"[..n], "send"[n..];
      && "send" == q + l && q != "" && !IsSpace(q[0]) && !IsSpace(q[|q| - 1])
      && l != "" && !IsSpace(l[0]) && ' ' !in l && '\n' !in l
  {
    var q, l := "send"[..n], "send"[n..];
    assert q[0] == 's' && q[n - 1] == "send"[n - 1] && l[0] == "send"[n];
    assert forall i :: 0 <= i < |l| ==> l[i] == "send"[n + i];
  }

  lemma HeadText(w: string, q: string, l: string, v: string)
    ensures w + ((q + l) + v + (w + q)) == (w + q) + (l + v + (w + q))
  {}

  /** Any white space followed by "s", "se" or "sen" is a prefix with which the panic can happen. */
  lemma HeadPrefixPanics(w: string, n: nat)
    requires w != "" && Blank(w) && 1 <= n <= 3
    ensures exists text ::
      CommandOf(w + "send"[..n], text) == Some("send") && Requested(w + "send"[..n], text) == OutOfRange
  {
    hide CommandOf, Requested, Blank, IsSpace;
    HeadOfSend(n);
    var q, l := "send"[..n], "send"[n..];
    var text := w + ("send" + "\n\n" + (w + q));
    HeadText(w, q, l, "\n\n");
    HeadDispatched(w, q, text);
    HeadRead(l, w + q);
  }
}
