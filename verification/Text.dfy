/** The string operations of Go's `strings`, `sort` and `strconv` packages that the bot relies on.
    A string is a sequence of characters; case mapping is that of ASCII. */
module Text {

  datatype Option<+T> = None | Some(value: T)

  predicate NoDuplicates<T(==)>(s: seq<T>) { forall i, j :: 0 <= i < j < |s| ==> s[i] != s[j] }

  function Members<T>(s: seq<T>): set<T> { set x | x in s }

  /* ---------- white space and case ---------- */

  predicate IsSpace(c: char) {
    || '\t' <= c <= '\r' || c == ' ' || c == '\U{0085}' || c == '\U{00A0}' || c == '\U{1680}'
    || '\U{2000}' <= c <= '\U{200A}' || c == '\U{2028}' || c == '\U{2029}'
    || c == '\U{202F}' || c == '\U{205F}' || c == '\U{3000}'
  }

  function TrimLeft(s: string): string {
    if s != "" && IsSpace(s[0]) then TrimLeft(s[1..]) else s
  }

  function TrimRight(s: string): string {
    if s != "" && IsSpace(s[|s| - 1]) then TrimRight(s[..|s| - 1]) else s
  }

  function TrimSpace(s: string): string { TrimRight(TrimLeft(s)) }

  predicate Trimmed(s: string) {
    s == "" || (!IsSpace(s[0]) && !IsSpace(s[|s| - 1]))
  }

  function LowerChar(c: char): char {
    if 'A' <= c <= 'Z' then (c as int + 32) as char else c
  }

  function ToLower(s: string): (r: string)
    ensures |r| == |s|
  {
    seq(|s|, i requires 0 <= i < |s| => LowerChar(s[i]))
  }

  predicate Blank(s: string) { forall i :: 0 <= i < |s| ==> IsSpace(s[i]) }

  lemma {:induction false} TrimRightKeepsHead(s: string)
    ensures |TrimRight(s)| <= |s| && TrimRight(s) == s[..|TrimRight(s)|] && Blank(s[|TrimRight(s)|..])
    ensures TrimRight(s) != "" ==> !IsSpace(TrimRight(s)[|TrimRight(s)| - 1])
  {
    if s != "" && IsSpace(s[|s| - 1]) {
      var n := |s| - 1;
      TrimRightKeepsHead(s[..n]);
      var r := TrimRight(s[..n]);
      assert s[|r|..] == s[..n][|r|..] + [s[n]];
    }
  }

  lemma {:induction false} TrimLeftKeepsTail(s: string)
    ensures |TrimLeft(s)| <= |s| && TrimLeft(s) == s[|s| - |TrimLeft(s)|..] && Blank(s[..|s| - |TrimLeft(s)|])
    ensures TrimLeft(s) != "" ==> !IsSpace(TrimLeft(s)[0])
  {
    if s != "" && IsSpace(s[0]) {
      TrimLeftKeepsTail(s[1..]);
      var r := TrimLeft(s[1..]);
      assert s[..|s| - |r|] == [s[0]] + s[1..][..|s| - 1 - |r|];
    }
  }

  lemma TrimSpaceTrims(s: string)
    ensures Trimmed(TrimSpace(s))
    ensures forall c :: c in TrimSpace(s) ==> c in s
  {
    TrimLeftKeepsTail(s);
    TrimRightKeepsHead(TrimLeft(s));
  }

  lemma {:induction false} TrimLeftKeeps(s: string, c: char)
    requires c in s && !IsSpace(c)
    ensures c in TrimLeft(s)
  {
    if IsSpace(s[0]) {
      assert s == [s[0]] + s[1..];
      TrimLeftKeeps(s[1..], c);
    }
  }

  lemma {:induction false} TrimRightKeeps(s: string, c: char)
    requires c in s && !IsSpace(c)
    ensures c in TrimRight(s)
  {
    var n := |s| - 1;
    if IsSpace(s[n]) {
      assert s == s[..n] + [s[n]];
      TrimRightKeeps(s[..n], c);
    }
  }

  lemma TrimSpaceKeeps(s: string, c: char)
    requires c in s && !IsSpace(c)
    ensures c in TrimSpace(s)
  {
    TrimLeftKeeps(s, c);
    TrimRightKeeps(TrimLeft(s), c);
  }

  lemma TrimSpaceFixed(s: string)
    requires Trimmed(s)
    ensures TrimSpace(s) == s
  {
  }

  lemma TrimSpaceFrame(s: string) returns (a: string, b: string)
    ensures s == a + TrimSpace(s) + b && Blank(a) && Blank(b) && |a| == |s| - |TrimLeft(s)|
  {
    TrimLeftKeepsTail(s);
    var l := TrimLeft(s);
    TrimRightKeepsHead(l);
    a := s[..|s| - |l|];
    b := l[|TrimRight(l)|..];
    assert l == TrimRight(l) + b;
  }

  lemma {:induction false} TrimLeftSkips(a: string, s: string)
    requires Blank(a)
    ensures TrimLeft(a + s) == TrimLeft(s)
  {
    if a == "" {
      assert a + s == s;
    } else {
      assert (a + s)[1..] == a[1..] + s;
      TrimLeftSkips(a[1..], s);
    }
  }

  lemma {:induction false} TrimRightSkips(s: string, b: string)
    requires Blank(b)
    ensures TrimRight(s + b) == TrimRight(s)
  {
    if b == "" {
      assert s + b == s;
    } else {
      assert (s + b)[..|s + b| - 1] == s + b[..|b| - 1];
      TrimRightSkips(s, b[..|b| - 1]);
    }
  }

  lemma TrimLeftOfSum(s: string, b: string)
    requires !Blank(s)
    ensures TrimLeft(s + b) == TrimLeft(s) + b
    decreases |s|
  {
    if IsSpace(s[0]) {
      assert (s + b)[1..] == s[1..] + b;
      assert s == [s[0]] + s[1..];
      TrimLeftOfSum(s[1..], b);
    }
  }

  lemma {:induction false} TrimLeftOfBlank(s: string)
    requires Blank(s)
    ensures TrimLeft(s) == ""
  {
    if s != "" { TrimLeftOfBlank(s[1..]); }
  }

  lemma TrimSpaceSkips(a: string, s: string, b: string)
    requires Blank(a) && Blank(b)
    ensures TrimSpace(a + s + b) == TrimSpace(s)
  {
    assert a + s + b == a + (s + b);
    TrimLeftSkips(a, s + b);
    if Blank(s) {
      TrimLeftOfBlank(s);
      TrimLeftOfBlank(s + b);
    } else {
      TrimLeftOfSum(s, b);
      TrimRightSkips(TrimLeft(s), b);
    }
  }

  lemma {:induction false} LowerTrimLeft(s: string)
    ensures TrimLeft(ToLower(s)) == ToLower(TrimLeft(s))
  {
    if s != "" && IsSpace(s[0]) {
      assert ToLower(s)[1..] == ToLower(s[1..]);
      LowerTrimLeft(s[1..]);
    }
  }

  lemma {:induction false} LowerTrimRight(s: string)
    ensures TrimRight(ToLower(s)) == ToLower(TrimRight(s))
  {
    if s != "" && IsSpace(s[|s| - 1]) {
      assert ToLower(s)[..|s| - 1] == ToLower(s[..|s| - 1]);
      LowerTrimRight(s[..|s| - 1]);
    }
  }

  lemma LowerTrimSpace(s: string)
    ensures TrimSpace(ToLower(s)) == ToLower(TrimSpace(s))
  {
    LowerTrimLeft(s);
    LowerTrimRight(TrimLeft(s));
  }

  /* ---------- searching ---------- */

  predicate HasPrefix(s: string, p: string) { p <= s }

  predicate OccursAt(s: string, p: string, i: nat) {
    i + |p| <= |s| && s[i..i + |p|] == p
  }

  /** The least index at or after `from` where `p` occurs in `s`, if any (strings.Index). */
  function IndexFrom(s: string, p: string, from: nat): (r: Option<nat>)
    ensures r.Some? ==> from <= r.value && OccursAt(s, p, r.value)
    ensures forall j: nat | from <= j && OccursAt(s, p, j) :: r.Some? && r.value <= j
    decreases |s| - from
  {
    if from + |p| > |s| then None
    else if OccursAt(s, p, from) then Some(from)
    else IndexFrom(s, p, from + 1)
  }

  function Index(s: string, p: string): Option<nat> { IndexFrom(s, p, 0) }

  predicate Contains(s: string, p: string) { Index(s, p).Some? }

  /* ---------- splitting and joining ---------- */

  /** strings.Split for a one-character separator. */
  function Split(s: string, sep: char): (r: seq<string>)
    ensures |r| >= 1
  {
    if s == "" then [""]
    else
      var rest := Split(s[1..], sep);
      if s[0] == sep then [""] + rest else [[s[0]] + rest[0]] + rest[1..]
  }

  function Join(parts: seq<string>, sep: char): string {
    if parts == [] then ""
    else if |parts| == 1 then parts[0]
    else parts[0] + [sep] + Join(parts[1..], sep)
  }

  lemma {:induction false} JoinOfSplit(s: string, sep: char)
    ensures Join(Split(s, sep), sep) == s
  {
    if s != "" {
      JoinOfSplit(s[1..], sep);
      var rest := Split(s[1..], sep);
      if s[0] == sep {
        assert ([""] + rest)[1..] == rest;
      } else {
        var first := [s[0]] + rest[0];
        assert Split(s, sep) == [first] + rest[1..];
        if |rest| > 1 {
          assert ([first] + rest[1..])[1..] == rest[1..];
        }
      }
      assert s == [s[0]] + s[1..];
    }
  }

  lemma {:induction false} SplitPieces(s: string, sep: char)
    ensures forall i :: 0 <= i < |Split(s, sep)| ==> sep !in Split(s, sep)[i]
    ensures sep !in s ==> Split(s, sep) == [s]
    ensures sep in s ==> |Split(s, sep)| >= 2
  {
    if s != "" {
      SplitPieces(s[1..], sep);
      assert s == [s[0]] + s[1..];
    }
  }

  lemma {:induction false} SplitCharacters(s: string, sep: char, i: nat, c: char)
    requires i < |Split(s, sep)| && c in Split(s, sep)[i]
    ensures c in s
  {
    if s != "" {
      var rest := Split(s[1..], sep);
      if s[0] == sep {
        SplitCharacters(s[1..], sep, i - 1, c);
      } else if i > 0 {
        SplitCharacters(s[1..], sep, i, c);
      } else if c in rest[0] {
        SplitCharacters(s[1..], sep, 0, c);
      }
    }
  }

  /** Splitting at the first separator: the first piece, then the pieces of what follows. */
  lemma {:induction false} SplitFirst(a: string, b: string, sep: char)
    requires sep !in a
    ensures Split(a + [sep] + b, sep) == [a] + Split(b, sep)
  {
    var s := a + [sep] + b;
    if a == "" {
      assert s[1..] == b;
    } else {
      assert s[1..] == a[1..] + [sep] + b;
      SplitFirst(a[1..], b, sep);
      assert [s[0]] + a[1..] == a;
      assert ([a[1..]] + Split(b, sep))[1..] == Split(b, sep);
    }
  }

  lemma {:induction false} SplitOfJoin(parts: seq<string>, sep: char)
    requires parts != []
    requires forall i :: 0 <= i < |parts| ==> sep !in parts[i]
    ensures Split(Join(parts, sep), sep) == parts
  {
    if |parts| == 1 {
      SplitPieces(parts[0], sep);
    } else {
      SplitOfJoin(parts[1..], sep);
      SplitFirst(parts[0], Join(parts[1..], sep), sep);
      assert parts == [parts[0]] + parts[1..];
    }
  }

  /* ---------- decimal numbers (strconv.Itoa, strconv.Atoi) ---------- */

  predicate IsDigit(c: char) { '0' <= c <= '9' }

  predicate AllDigits(s: string) {
    s == "" || (IsDigit(s[|s| - 1]) && AllDigits(s[..|s| - 1]))
  }

  function NatString(n: nat): (s: string)
    ensures s != ""
  {
    var last := ['0' + (n % 10) as char];
    if n < 10 then last else NatString(n / 10) + last
  }

  function Itoa(n: int): string {
    if n < 0 then "-" + NatString(-n) else NatString(n)
  }

  function Digits(s: string): int {
    if s == "" then 0 else 10 * Digits(s[..|s| - 1]) + (s[|s| - 1] as int - '0' as int)
  }

  /** strconv.Atoi: an optional sign and at least one digit. */
  function Atoi(s: string): Option<int> {
    var signed := s != "" && (s[0] == '-' || s[0] == '+');
    var body := if signed then s[1..] else s;
    if body == "" || !AllDigits(body) then None
    else Some(if s[0] == '-' then -Digits(body) else Digits(body))
  }

  lemma {:induction false} DigitsOfNatString(n: nat)
    ensures AllDigits(NatString(n)) && IsDigit(NatString(n)[0]) && Digits(NatString(n)) == n
  {
    var s := NatString(n);
    if n < 10 {
      assert s[..|s| - 1] == "";
    } else {
      DigitsOfNatString(n / 10);
      assert s[..|s| - 1] == NatString(n / 10);
    }
  }

  lemma AtoiOfItoa(n: int)
    ensures Atoi(Itoa(n)) == Some(n)
  {
    hide NatString, AllDigits, Digits;
    var s := Itoa(n);
    DigitsOfNatString(if n < 0 then -n else n);
    if n < 0 {
      assert s[0] == '-' && s[1..] == NatString(-n);
    } else {
      assert s == NatString(n) && s[0] != '-' && s[0] != '+';
    }
  }

  /* ---------- case ---------- */

  const UPPER_CASE := "ABCDEFGHIJKLMNOPQRSTUVWXYZ"
  const LOWER_CASE := "abcdefghijklmnopqrstuvwxyz"

  /** The two letters differ only in case, or not at all. */
  predicate SameLetter(c: char, d: char) {
    c == d || exists i :: 0 <= i < 26 && c in {UPPER_CASE[i], LOWER_CASE[i]} && d in {UPPER_CASE[i], LOWER_CASE[i]}
  }

  predicate SameButCase(s: string, t: string) { |s| == |t| && forall i :: 0 <= i < |s| ==> SameLetter(s[i], t[i]) }

  lemma Alphabet(i: nat)
    requires i < 26
    ensures UPPER_CASE[i] as int == 'A' as int + i && LOWER_CASE[i] as int == 'a' as int + i
  {}

  lemma LowerLetter(c: char)
    ensures SameLetter(c, LowerChar(c)) && forall i :: 0 <= i < 26 ==> LowerChar(c) != UPPER_CASE[i]
  {
    forall i | 0 <= i < 26 ensures LowerChar(c) != UPPER_CASE[i] { Alphabet(i); }
    if 'A' <= c <= 'Z' {
      var i := c as int - 'A' as int;
      Alphabet(i);
      assert c == UPPER_CASE[i] && LowerChar(c) == LOWER_CASE[i];
    }
  }

  lemma LowerOfSame(c: char, d: char)
    requires SameLetter(c, d)
    ensures LowerChar(c) == LowerChar(d)
  {
    if c != d {
      var i :| 0 <= i < 26 && c in {UPPER_CASE[i], LOWER_CASE[i]} && d in {UPPER_CASE[i], LOWER_CASE[i]};
      Alphabet(i);
    }
  }

  /** Lower-casing changes nothing but case, leaves no upper-case letter, and identifies exactly the texts that
      differ in nothing but case. */
  lemma ToLowerExact(s: string, t: string)
    ensures SameButCase(s, ToLower(s)) && forall i :: 0 <= i < 26 ==> UPPER_CASE[i] !in ToLower(s)
    ensures ToLower(s) == ToLower(t) <==> SameButCase(s, t)
  {
    hide SameLetter, LowerChar;
    forall k | 0 <= k < |s|
      ensures SameLetter(s[k], ToLower(s)[k]) && forall i :: 0 <= i < 26 ==> ToLower(s)[k] != UPPER_CASE[i]
    {
      LowerLetter(s[k]);
    }
    if SameButCase(s, t) {
      forall k | 0 <= k < |s| ensures ToLower(s)[k] == ToLower(t)[k] { LowerOfSame(s[k], t[k]); }
    }
    if ToLower(s) == ToLower(t) {
      forall k | 0 <= k < |s| ensures SameLetter(s[k], t[k]) {
        assert LowerChar(s[k]) == ToLower(s)[k] == ToLower(t)[k] == LowerChar(t[k]);
        SameLowers(s[k], t[k]);
      }
    }
  }

  lemma SameLowers(c: char, d: char)
    requires LowerChar(c) == LowerChar(d)
    ensures SameLetter(c, d)
  {
    if c != d {
      var i := LowerChar(c) as int - 'a' as int;
      Alphabet(i);
      assert c in {UPPER_CASE[i], LOWER_CASE[i]} && d in {UPPER_CASE[i], LOWER_CASE[i]};
    }
  }
}
