/** Email addresses, domains and message ids (internal/utils/mail.go, internal/utils/utils.go,
    internal/email/utils.go). The address parsers of the libraries are parameters. */
module Addresses {
  import opened Text

  /** `one` and `list` stand for mail.ParseAddress and mail.ParseAddressList, giving the bare addresses; `parts`
      for emailaddress.Parse, giving local part and domain. */
  datatype Parsers = Parsers(one: string -> Option<string>, list: string -> seq<string>,
                             parts: string -> Option<(string, string)>)

  function LastIndex(s: string, c: char): (r: Option<nat>)
    ensures r.Some? ==> r.value < |s| && s[r.value] == c && c !in s[r.value + 1..]
    ensures r.None? <==> c !in s
  {
    if s == "" then None
    else
      var n := |s| - 1;
      if s[n] == c then Some(n)
      else
        var r := LastIndex(s[..n], c);
        assert s == s[..n] + [s[n]];
        assert r.Some? ==> s[r.value + 1..] == s[..n][r.value + 1..] + [s[n]];
        r
  }

  /** What emailaddress.Parse promises: an accepted address is cut at its last '@'. */
  ghost predicate CutsAtLast(p: Parsers) {
    forall s :: p.parts(s).Some? ==>
      var (local, domain) := p.parts(s).value; s == local + "@" + domain && '@' !in domain
  }

  function Hostname(p: Parsers, email: string): string { AfterLast(p, ToLower(TrimSpace(email))) }

  /** No '@' comes after the one before a domain. */
  lemma LastAt(a: string, b: string)
    requires '@' !in b
    ensures var s := a + "@" + b; s[|a|] == '@' && forall k :: |a| < k < |s| ==> s[k] != '@'
  {
    var s := a + "@" + b;
    forall k | |a| < k < |s|
      ensures s[k] != '@'
    {
      assert s[k] == b[k - |a| - 1];
    }
  }

  lemma CutUnique(a: string, b: string, x: string, y: string)
    requires a + "@" + b == x + "@" + y && '@' !in b && '@' !in y
    ensures a == x && b == y
  {
    LastAt(a, b);
    LastAt(x, y);
    var s := a + "@" + b;
    assert a == s[..|a|] && b == s[|a| + 1..];
    assert x == s[..|x|] && y == s[|x| + 1..];
  }

  lemma TrimKeepsDomain(a: string, d: string) returns (b: string)
    requires Trimmed(d)
    ensures TrimSpace(a + "@" + d) == b + "@" + d
  {
    var s := a + "@" + d;
    TrimLeftKeepsTail(s);
    TrimLeftKeeps(s, '@') by { assert s[|a|] == '@'; }
    b := TrimLeftOfAt(a, d);
    var t := b + "@" + d;
    assert t[|t| - 1] == (if d == "" then '@' else d[|d| - 1]);
  }

  lemma {:induction false} TrimLeftOfAt(a: string, d: string) returns (b: string)
    ensures TrimLeft(a + "@" + d) == b + "@" + d
  {
    b := a;
    if a != "" && IsSpace(a[0]) {
      assert (a + "@" + d)[1..] == a[1..] + "@" + d;
      b := TrimLeftOfAt(a[1..], d);
    }
  }

  /** A domain as it is configured: lower-case, without outer white space and without '@'. */
  predicate PlainDomain(d: string) { Trimmed(d) && ToLower(d) == d && '@' !in d }

  /** The part after the last '@', as `Hostname` takes it from a trimmed lower-case address. */
  function AfterLast(p: Parsers, e: string): string {
    match p.parts(e)
    case Some(parts) => parts.1
    case None => (match LastIndex(e, '@') case Some(i) => e[i + 1..] case None => e)
  }

  lemma AfterLastOf(p: Parsers, b: string, domain: string)
    requires CutsAtLast(p) && '@' !in domain
    ensures AfterLast(p, b + "@" + domain) == domain
  {
    var e := b + "@" + domain;
    if p.parts(e).Some? {
      CutUnique(p.parts(e).value.0, p.parts(e).value.1, b, domain);
    } else {
      assert e[|b|] == '@';
      var i := LastIndex(e, '@').value;
      assert e == e[..i] + "@" + e[i + 1..];
      CutUnique(e[..i], e[i + 1..], b, domain);
    }
  }

  lemma LowerOfAt(b: string, domain: string)
    ensures ToLower(b + "@" + domain) == ToLower(b) + "@" + ToLower(domain)
  {}

  /** The host name of `mailbox@domain` is that domain, whichever way the address is read. */
  lemma HostnameOf(p: Parsers, mailbox: string, domain: string)
    requires CutsAtLast(p) && PlainDomain(domain)
    ensures Hostname(p, mailbox + "@" + domain) == domain
  {
    hide TrimSpace, ToLower, AfterLast, CutsAtLast;
    var b := TrimKeepsDomain(mailbox, domain);
    LowerOfAt(b, domain);
    AfterLastOf(p, ToLower(b), domain);
  }

  // ---------- the domain to use

  function Sanitized(domains: seq<string>, domain: string): string
    requires |domains| > 0
  {
    if TrimSpace(domain) != "" && TrimSpace(domain) in domains then TrimSpace(domain) else domains[0]
  }

  method SanitizeDomain(domains: seq<string>, domain: string) returns (r: string)
    requires |domains| > 0
    ensures r == Sanitized(domains, domain)
    ensures r in domains
  {
    var d := TrimSpace(domain);
    if d == "" { return domains[0]; }
    for i := 0 to |domains|
      invariant d !in domains[..i]
    {
      if d == domains[i] { return d; }
    }
    assert domains[..|domains|] == domains;
    return domains[0];
  }

  // ---------- message ids

  function MessageID(event: string, domain: string): string { "<" + event + "@" + domain + ">" }

  /** Message ids of domains without '@' tell both the event and the domain. */
  lemma MessageIDInjective(e: string, d: string, f: string, c: string)
    requires MessageID(e, d) == MessageID(f, c) && '@' !in d && '@' !in c
    ensures e == f && d == c
  {
    var s := MessageID(e, d);
    assert s[1..|s| - 1] == e + "@" + d;
    assert s[1..|s| - 1] == f + "@" + c;
    CutUnique(e, d, f, c);
  }

  // ---------- bare addresses

  function AddressList(p: Parsers, emails: string): seq<string> {
    if emails == "" then [] else p.list(ToLower(TrimSpace(emails)))
  }

  function Address(p: Parsers, email: string): string {
    var e := ToLower(TrimSpace(email));
    match p.one(e)
    case Some(a) => a
    case None =>
      var list := AddressList(p, e);
      if |list| > 0 then Join(list, ',') else e
  }

  /** A Message-Id has the form of section 3.6.4 of RFC 5322: angle brackets around the event and, after the last
      '@', the domain. */
  lemma MessageIDForm(event: string, domain: string)
    requires '@' !in domain
    ensures var s := MessageID(event, domain);
      && s[0] == '<' && s[|s| - 1] == '>'
      && LastIndex(s, '@') == Some(1 + |event|) && s[1..1 + |event|] == event && s[2 + |event|..|s| - 1] == domain
  {
    var s := MessageID(event, domain);
    assert s == "<" + event + "@" + (domain + ">");
    LastAt("<" + event, domain + ">");
    assert s[1 + |event|] == '@';
  }

  /** Case and outer white space make no difference to a host name. */
  lemma HostnameAnyCase(p: Parsers, a: string, x: string, b: string, y: string)
    requires Blank(a) && Blank(b) && Trimmed(x) && Trimmed(y) && SameButCase(x, y)
    ensures Hostname(p, a + x + b) == Hostname(p, y)
  {
    TrimSpaceSkips(a, x, b);
    TrimSpaceFixed(x);
    TrimSpaceFixed(y);
    ToLowerExact(x, y);
    hide TrimSpace, ToLower, SameButCase, AfterLast;
  }

  /** A text without '@' that is not an address is its own host name. */
  lemma HostnameBare(p: Parsers, x: string)
    requires Trimmed(x) && ToLower(x) == x && '@' !in x && p.parts(x).None?
    ensures Hostname(p, x) == x
  {
    TrimSpaceFixed(x);
  }

  /** The addresses of a list: none in an empty text, else what the parser makes of it in lower case and trimmed. */
  lemma AddressListExact(p: Parsers, a: string, x: string, b: string)
    requires Blank(a) && Blank(b) && Trimmed(x) && ToLower(x) == x
    ensures AddressList(p, "") == []
    ensures a + x + b != "" ==> AddressList(p, a + x + b) == p.list(x)
  {
    TrimSpaceSkips(a, x, b);
    TrimSpaceFixed(x);
    hide TrimSpace, ToLower;
  }

  /** The domain used for a setting: without outer white space if it is configured, else the first configured one. */
  lemma SanitizedExact(domains: seq<string>, a: string, d: string, b: string)
    requires |domains| > 0 && Blank(a) && Blank(b) && Trimmed(d)
    ensures Sanitized(domains, a + d + b) == if d != "" && (exists i :: 0 <= i < |domains| && domains[i] == d)
                                            then d else domains[0]
  {
    TrimSpaceSkips(a, d, b);
    TrimSpaceFixed(d);
    hide TrimSpace;
  }
}
