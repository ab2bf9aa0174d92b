/** The headers and recipients of a reply, taken from the parent email (internal/bot/email.go). */
module Replies {
  import opened Text
  import opened Addresses
  import opened Rewriting

  /** The addresses that the room's mailbox has on the configured domains. */
  function Senders(mailbox: string, domains: seq<string>): set<string> {
    set d | d in domains :: mailbox + "@" + d
  }

  /** The room's address in the parent email: From goes first, then To, then RCPT TO. */
  function Previous(senders: set<string>, from: string, to: string, rcptTo: string): string {
    if from in senders then from
    else if to in senders then to
    else if rcptTo in senders then rcptTo
    else ""
  }

  /** `order` is one way to go through `all`. */
  predicate IsOrder<T(==)>(order: seq<T>, all: set<T>) { NoDuplicates(order) && Members(order) == all }

  function AddressAll(p: Parsers, s: seq<string>): (r: seq<string>)
    ensures |r| == |s|
  {
    seq(|s|, i requires 0 <= i < |s| => Address(p, s[i]))
  }

  /** The addresses named by To and CC. */
  function ToAndCc(p: Parsers, to: string, cc: string): set<string> {
    Members(Split(Address(p, to), ',')) + Members(AddressList(p, cc))
  }

  /** The addresses kept by `calculateRecipients`. */
  function Kept(p: Parsers, from: string, to: string, cc: string, sender: string, forwarded: seq<string>): set<string> {
    ({Address(p, from)} + ToAndCc(p, to, cc)) - Members(forwarded) - {sender}
  }

  /** The CC header is the old one with the senders replaced in some order. */
  ghost predicate RewrittenSomehow(senders: set<string>, cc: string, o: string, result: string) {
    exists order ::
      IsOrder(order, senders) && (forall i :: 0 <= i < |order| ==> order[i] != "") && result == Rewritten(order, cc, o)
  }

  /** If no address in CC and no original From contains a sender's address other than by being it, the new CC is
      the old list with the room's addresses replaced by the original From. */
  lemma CcIntended(senders: set<string>, addrs: seq<string>, o: string, result: string)
    requires RewrittenSomehow(senders, Join(addrs, ','), o, result)
    requires forall s :: s in senders ==> ',' !in s && WholeOnly(addrs, s) && WholeOnly([o], s)
    ensures result == Join(Swapped(addrs, senders, o), ',')
  {
    hide WholeOnly, Rewritten;
    var order :| IsOrder(order, senders) && (forall i :: 0 <= i < |order| ==> order[i] != "")
                 && result == Rewritten(order, Join(addrs, ','), o);
    assert forall i :: 0 <= i < |order| ==> order[i] in Members(order);
    AnyOrderExact(order, addrs, o);
  }

  /** The recipients are the kept addresses, normalized, in some order. */
  ghost predicate Recipients(p: Parsers, kept: set<string>, recipients: seq<string>) {
    exists order :: IsOrder(order, kept) && recipients == AddressAll(p, order)
  }

  lemma SenderNotEmpty(mailbox: string, domains: seq<string>)
    ensures forall s :: s in Senders(mailbox, domains) ==> s != "" && '@' in s
  {
    forall s | s in Senders(mailbox, domains)
      ensures s != "" && '@' in s
    {
      var d :| d in domains && s == mailbox + "@" + d;
      assert s[|mailbox|] == '@';
    }
  }

  /** The domain chosen for the Message-Id is the domain of the sender's own address. */
  lemma SenderOnItsDomain(p: Parsers, mailbox: string, domains: seq<string>, sender: string)
    requires CutsAtLast(p)
    requires forall d :: d in domains ==> PlainDomain(d) && d != ""
    requires sender in Senders(mailbox, domains)
    ensures sender == mailbox + "@" + Sanitized(domains, Hostname(p, sender))
  {
    var d :| d in domains && sender == mailbox + "@" + d;
    HostnameOf(p, mailbox, d);
    TrimSpaceFixed(d);
  }

  // ---------- who receives the reply

  predicate InjectiveOn(p: Parsers, kept: set<string>) {
    forall a, b :: a in kept && b in kept && Address(p, a) == Address(p, b) ==> a == b
  }

  lemma ElementAt<T>(s: seq<T>, x: T) returns (i: nat)
    requires x in Members(s)
    ensures i < |s| && s[i] == x
  {
    i :| 0 <= i < |s| && s[i] == x;
  }

  /** As a set the recipients are the normalized kept addresses; nobody is listed twice exactly when
      normalization keeps the kept addresses apart. */
  lemma RecipientsListed(p: Parsers, kept: set<string>, recipients: seq<string>)
    requires Recipients(p, kept, recipients)
    ensures Members(recipients) == set a | a in kept :: Address(p, a)
    ensures NoDuplicates(recipients) <==> InjectiveOn(p, kept)
  {
    hide Address;
    var order :| IsOrder(order, kept) && recipients == AddressAll(p, order);
    forall a | a in kept
      ensures Address(p, a) in recipients
    {
      var i := ElementAt(order, a);
      assert recipients[i] == Address(p, a);
    }
    forall r | r in recipients
      ensures exists a :: a in kept && r == Address(p, a)
    {
      var i := ElementAt(recipients, r);
      assert order[i] in kept && r == Address(p, order[i]);
    }
    if NoDuplicates(recipients) {
      forall a, b | a in kept && b in kept && Address(p, a) == Address(p, b)
        ensures a == b
      {
        var i := ElementAt(order, a);
        var j := ElementAt(order, b);
        assert recipients[i] == recipients[j];
      }
    }
    if InjectiveOn(p, kept) {
      forall i, j | 0 <= i < j < |recipients|
        ensures recipients[i] != recipients[j]
      {
        assert order[i] in kept && order[j] in kept;
      }
    }
  }

  /** Adding From to the recipients, which `calculateRecipients` does, makes no difference exactly when the
      normalized sender is the sender itself, is forwarded, or is in To or CC anyway. */
  lemma SenderLeftOut(p: Parsers, to: string, cc: string, sender: string, forwarded: seq<string>)
    ensures Kept(p, sender, to, cc, sender, forwarded) == ToAndCc(p, to, cc) - Members(forwarded) - {sender}
      <==> Address(p, sender) == sender || Address(p, sender) in forwarded || Address(p, sender) in ToAndCc(p, to, cc)
  {
    hide Address, ToAndCc;
    var a := Address(p, sender);
    var wanted := ToAndCc(p, to, cc) - Members(forwarded) - {sender};
    if a != sender && a !in forwarded && a !in ToAndCc(p, to, cc) {
      assert a in Kept(p, sender, to, cc, sender, forwarded) && a !in wanted;
    }
  }

  /** Normalization leaves these addresses alone. */
  predicate Normal(p: Parsers, addrs: set<string>) { forall a :: a in addrs ==> Address(p, a) == a }

  /** An address that normalization leaves alone and that names one mailbox. */
  predicate SingleAddress(p: Parsers, a: string) { Address(p, a) == a && ',' !in a }

  lemma PlainNamed(p: Parsers, to: string, cc: string)
    requires SingleAddress(p, to)
    ensures to in ToAndCc(p, to, cc)
  {
    SplitPieces(to, ',');
    assert to in [to];
  }

  /** With plain addresses the recipients are duplicate-free and exactly To and CC without the sender and the
      forwarded addresses. */
  lemma PlainRecipients(p: Parsers, to: string, cc: string, sender: string, forwarded: seq<string>,
                        recipients: seq<string>)
    requires Normal(p, ToAndCc(p, to, cc) + {sender})
    requires Recipients(p, Kept(p, sender, to, cc, sender, forwarded), recipients)
    ensures NoDuplicates(recipients)
    ensures Members(recipients) == ToAndCc(p, to, cc) - Members(forwarded) - {sender}
  {
    hide Address, ToAndCc;
    var kept := Kept(p, sender, to, cc, sender, forwarded);
    assert sender in ToAndCc(p, to, cc) + {sender};
    SenderLeftOut(p, to, cc, sender, forwarded);
    assert forall a :: a in kept ==> a in ToAndCc(p, to, cc) + {sender};
    RecipientsListed(p, kept, recipients);
    assert (set a | a in kept :: Address(p, a)) == kept;
  }

  // ---------- the code

  /** The metadata of a Matrix event that came from an email. */
  datatype Fields = Fields(from: string, to: string, cc: string, rcptTo: string, messageID: string, refs: string)

  class ParentEmail {
    var messageID: string
    var from: string
    var fromDomain: string
    var to: string
    var rcptTo: string
    var cc: string
    var inReplyTo: string
    var refs: string
    var recipients: seq<string>

    constructor ()
      ensures from == "" && to == "" && recipients == []
    {
      messageID, from, fromDomain, to, rcptTo, cc, inReplyTo, refs, recipients := "", "", "", "", "", "", "", "", [];
    }

    method FixToFrom(p: Parsers, mailbox: string, domains: seq<string>) returns (sender: string)
      requires |domains| > 0
      modifies this`from, this`fromDomain, this`to, this`cc
      ensures sender == Previous(Senders(mailbox, domains), old(from), old(to), rcptTo)
      ensures from == sender
      ensures sender == "" || sender in Senders(mailbox, domains)
      ensures fromDomain == Sanitized(domains, Hostname(p, sender)) && fromDomain in domains
      ensures to == if old(to) in Senders(mailbox, domains) then old(from) else old(to)
      ensures RewrittenSomehow(Senders(mailbox, domains), old(cc), old(from), cc)
    {
      hide ReplaceAll, Index, Hostname;
      var senders: map<string, string> := map[];
      for i := 0 to |domains|
        invariant senders.Keys == Senders(mailbox, domains[..i])
        invariant forall s :: s in senders ==> senders[s] == s
      {
        var s := mailbox + "@" + domains[i];
        assert domains[..i + 1] == domains[..i] + [domains[i]];
        senders := senders[s := s];
      }
      assert domains[..|domains|] == domains;
      SenderNotEmpty(mailbox, domains);
      var previous := "";
      if rcptTo in senders { previous := senders[rcptTo]; }
      var toSender := "";
      if to in senders {
        toSender := senders[to];
        previous := toSender;
      }
      var fromSender := "";
      if from in senders {
        fromSender := senders[from];
        previous := fromSender;
      }
      fromDomain := SanitizeDomain(domains, Hostname(p, previous));
      var original := from;
      if fromSender == "" { from := previous; }
      if toSender != "" { to := original; }
      RewriteCc(senders.Keys, original);
      return previous;
    }

    /** The loop over the senders, in whatever order the map gives them. */
    method RewriteCc(senders: set<string>, original: string)
      requires forall s :: s in senders ==> s != ""
      modifies this`cc
      ensures RewrittenSomehow(senders, old(cc), original, cc)
    {
      hide ReplaceAll, Index;
      var left, done := senders, [];
      while left != {}
        invariant left <= senders && IsOrder(done, senders - left)
        invariant forall i :: 0 <= i < |done| ==> done[i] in senders && done[i] != ""
        invariant cc == Rewritten(done, old(cc), original)
      {
        var s :| s in left;
        if Contains(cc, s) {
          cc := ReplaceAll(cc, s, original);
        } else {
          NothingToReplace(cc, s, original);
        }
        assert (done + [s])[..|done|] == done;
        OneMoreDone(done, senders - left, s);
        done := done + [s];
        left := left - {s};
        assert senders - left == (senders - (left + {s})) + {s};
      }
      assert senders - left == senders;
    }

    method CalculateRecipients(p: Parsers, sender: string, forwarded: seq<string>)
      modifies this`recipients
      ensures Recipients(p, Kept(p, from, to, cc, sender, forwarded), recipients)
    {
      hide Address, AddressList, Split;
      var found := {Address(p, from)};
      var tos := Split(Address(p, to), ',');
      for i := 0 to |tos|
        invariant found == {Address(p, from)} + Members(tos[..i])
      {
        assert tos[..i + 1] == tos[..i] + [tos[i]];
        found := found + {tos[i]};
      }
      assert tos[..|tos|] == tos;
      var list := AddressList(p, cc);
      for i := 0 to |list|
        invariant found == {Address(p, from)} + Members(tos) + Members(list[..i])
      {
        assert list[..i + 1] == list[..i] + [list[i]];
        found := found + {list[i]};
      }
      assert list[..|list|] == list;
      ghost var all := found;
      for i := 0 to |forwarded|
        invariant found == all - Members(forwarded[..i])
      {
        assert forwarded[..i + 1] == forwarded[..i] + [forwarded[i]];
        found := found - {forwarded[i]};
      }
      assert forwarded[..|forwarded|] == forwarded;
      found := found - {sender};
      ghost var kept := Kept(p, from, to, cc, sender, forwarded);
      assert found == kept;
      var rcpts: seq<string> := [];
      ghost var order: seq<string> := [];
      while found != {}
        invariant found <= kept && IsOrder(order, kept - found)
        invariant rcpts == AddressAll(p, order)
      {
        var r :| r in found;
        OneMoreDone(order, kept - found, r);
        assert AddressAll(p, order + [r]) == AddressAll(p, order) + [Address(p, r)];
        rcpts := rcpts + [Address(p, r)];
        order := order + [r];
        found := found - {r};
        assert kept - found == (kept - (found + {r})) + {r};
      }
      assert kept - found == kept;
      recipients := rcpts;
    }

    /** The email to reply to. Its own addresses are normalized first; with plain addresses the reply goes,
        once each, to To and CC without the room and the forwarded addresses, and to the author of the parent
        when that was addressed to the room. */
    method GetParentEmail(p: Parsers, parent: Fields, parentID: string, mailbox: string, domains: seq<string>,
                          forwarded: seq<string>)
      requires |domains| > 0
      modifies this
      ensures var author, addressee := Address(p, parent.from), Address(p, parent.to);
        from == Previous(Senders(mailbox, domains), author, addressee, Address(p, parent.rcptTo))
      ensures from == "" || from in Senders(mailbox, domains)
      ensures fromDomain == Sanitized(domains, Hostname(p, from)) && fromDomain in domains
      ensures RewrittenSomehow(Senders(mailbox, domains), Address(p, parent.cc), Address(p, parent.from), cc)
      ensures messageID == MessageID(parentID, fromDomain)
      ensures inReplyTo == if parent.messageID == "" then messageID else parent.messageID
      ensures refs == if parent.refs == "" then " " + messageID else parent.refs
      ensures var author, addressee := Address(p, parent.from), Address(p, parent.to);
        && (addressee !in Senders(mailbox, domains) ==> to == addressee)
        && (addressee in Senders(mailbox, domains) ==> to == author)
      ensures Recipients(p, Kept(p, from, to, cc, from, forwarded), recipients)
      ensures Normal(p, ToAndCc(p, to, cc) + {from}) ==>
        NoDuplicates(recipients) && Members(recipients) == ToAndCc(p, to, cc) - Members(forwarded) - {from}
    {
      hide Address, AddressList, Hostname, RewrittenSomehow, ToAndCc, Sanitized, Recipients, Kept,
        Normal, NoDuplicates, Members, Senders, Previous;
      from := Address(p, parent.from);
      to := Address(p, parent.to);
      cc := Address(p, parent.cc);
      rcptTo := Address(p, parent.rcptTo);
      inReplyTo := parent.messageID;
      refs := parent.refs;
      var sender := FixToFrom(p, mailbox, domains);
      CalculateRecipients(p, sender, forwarded);
      messageID := MessageID(parentID, fromDomain);
      if inReplyTo == "" { inReplyTo := messageID; }
      if refs == "" { refs := " " + messageID; }
      if Normal(p, ToAndCc(p, to, cc) + {from}) {
        PlainRecipients(p, to, cc, from, forwarded, recipients);
      }
    }
  }

  lemma OneMoreDone<T>(done: seq<T>, seen: set<T>, x: T)
    requires IsOrder(done, seen) && x !in seen
    ensures IsOrder(done + [x], seen + {x})
  {
    assert forall i :: 0 <= i < |done| ==> done[i] in Members(done);
  }

  /** The author of an email to the room gets the reply, unless that address is the room's own or forwarded. */
  lemma AuthorGetsReply(p: Parsers, author: string, cc: string, sender: string, forwarded: seq<string>,
                        recipients: seq<string>)
    requires SingleAddress(p, author)
    requires Recipients(p, Kept(p, sender, author, cc, sender, forwarded), recipients)
    ensures author in recipients || author in forwarded || author == sender
  {
    PlainNamed(p, author, cc);
    hide Address, ToAndCc;
    if author !in forwarded && author != sender {
      var kept := Kept(p, sender, author, cc, sender, forwarded);
      assert author in kept;
      RecipientsListed(p, kept, recipients);
      assert Address(p, author) in Members(recipients);
    }
  }

  /** The sender, in terms of the mailbox and the domains: the parent's From if it is the mailbox on a configured
      domain, else its To if that is, else its RCPT TO if that is, else nobody. */
  lemma PreviousExact(mailbox: string, domains: seq<string>, from: string, to: string, rcptTo: string)
    ensures var sender := Previous(Senders(mailbox, domains), from, to, rcptTo);
      && (forall d :: d in domains && from == mailbox + "@" + d ==> sender == from)
      && ((forall d :: d in domains ==> from != mailbox + "@" + d) ==>
            && (forall d :: d in domains && to == mailbox + "@" + d ==> sender == to)
            && ((forall d :: d in domains ==> to != mailbox + "@" + d) ==>
                  && (forall d :: d in domains && rcptTo == mailbox + "@" + d ==> sender == rcptTo)
                  && ((forall d :: d in domains ==> rcptTo != mailbox + "@" + d) ==> sender == "")))
  {
    hide Index;
    forall a ensures a in Senders(mailbox, domains) <==> exists d :: d in domains && a == mailbox + "@" + d {}
  }

  /** An address read on its own: what the parser makes of it in lower case and without outer white space; the
      addresses of a list with commas between them; the text itself if neither parser takes it. */
  lemma AddressExact(p: Parsers, a: string, text: string, b: string)
    requires Blank(a) && Blank(b) && Trimmed(text) && ToLower(text) == text
    ensures p.one(text).Some? ==> Address(p, a + text + b) == p.one(text).value
    ensures p.one(text).None? && text != "" && p.list(text) != [] && CommaFreeAll(p.list(text)) ==>
      Split(Address(p, a + text + b), ',') == p.list(text)
    ensures p.one(text).None? && (text == "" || p.list(text) == []) ==> Address(p, a + text + b) == text
  {
    TrimSpaceSkips(a, text, b);
    TrimSpaceFixed(text);
    hide TrimSpace, ToLower, Split, Join;
    if p.list(text) != [] && CommaFreeAll(p.list(text)) { SplitOfJoin(p.list(text), ','); }
  }

  predicate CommaFreeAll(s: seq<string>) { forall i :: 0 <= i < |s| ==> ',' !in s[i] }

  /** The recipients of a reply to lists of addresses: each address of To and of CC that is neither forwarded nor
      the sender's, once. */
  lemma ReplyReaches(p: Parsers, tos: seq<string>, cc: string, sender: string, forwarded: seq<string>,
                     recipients: seq<string>)
    requires tos != [] && CommaFreeAll(tos) && Address(p, Join(tos, ',')) == Join(tos, ',')
    requires Normal(p, Members(tos) + Members(AddressList(p, cc)) + {sender})
    requires Recipients(p, Kept(p, sender, Join(tos, ','), cc, sender, forwarded), recipients)
    ensures NoDuplicates(recipients)
    ensures forall a :: a in recipients <==> (a in tos || a in AddressList(p, cc)) && a !in forwarded && a != sender
  {
    var to := Join(tos, ',');
    SplitOfJoin(tos, ',');
    assert ToAndCc(p, to, cc) == Members(tos) + Members(AddressList(p, cc));
    hide Address, AddressList, Recipients, Split, Join, ToAndCc, Normal;
    PlainRecipients(p, to, cc, sender, forwarded, recipients);
    forall a ensures a in recipients <==> a in Members(recipients) {}
  }
}
