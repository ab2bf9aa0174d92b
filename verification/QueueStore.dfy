/** What the retry queue keeps in the bot's account data (internal/bot/queue/queue.go):
    an index record that maps email ids to item keys, and one item record per email. */
module QueueStore {
  import opened Text

  type Id = string

  /** The account-data keys of the queue; `KeyText` gives their text. */
  datatype Key = QueueKey | ItemKey(id: Id)

  const DEFAULT_BATCH := 10
  const DEFAULT_RETRIES := 100

  /** An email as handed to `Sendmail`; `relay` is the text of the relay URL, None for a nil URL. The text of a URL
      that is not nil may be empty. */
  datatype Mail = Mail(from: string, to: string, data: string, relay: Option<string>)

  /** An item record; `Blank` is the empty map, which is also what an unknown key reads as. */
  datatype Record =
    | Blank
    | Full(attempts: string, relay: string, data: string, from: string, to: string, id: string)

  /** One call of the mail sender and its answer. `queued` tells a call made by `try` from the
      first call made by `Sendmail`. */
  datatype Sent = Sent(id: Id, from: string, to: string, data: string, relay: Option<string>,
                       queued: bool, reply: Reply)

  datatype Reply = Accepted | Rejected(message: string)

  /** How a write ends: stored and acknowledged, refused, or stored although an error is reported. */
  datatype Verdict = Acked | Refused | Unacked

  function KeyText(k: Key): string {
    match k
    case QueueKey => "cc.etke.postmoogle.mailqueue"
    case ItemKey(id) => "cc.etke.postmoogle.mailqueue" + "." + id
  }

  /** No two keys share their text, and none is empty. */
  lemma KeyTextInjective(a: Key, b: Key)
    ensures KeyText(a) == KeyText(b) <==> a == b
    ensures KeyText(a) != ""
  {
    var q := "cc.etke.postmoogle.mailqueue" + ".";
    if a.ItemKey? && b.ItemKey? && KeyText(a) == KeyText(b) {
      assert a.id == KeyText(a)[|q|..];
      assert b.id == KeyText(b)[|q|..];
    }
  }

  function NewRecord(id: Id, mail: Mail): Record
    requires mail.relay.Some?
  {
    Full("0", mail.relay.value, mail.data, mail.from, mail.to, id)
  }

  function Fetch(items: map<Key, Record>, key: Key): Record {
    if key in items then items[key] else Blank
  }

  /** `strconv.Atoi(item["attempts"])`. */
  function Attempts(r: Record): Option<int> {
    if r.Blank? then None else Atoi(r.attempts)
  }

  /** The record of email `id`, whole, with a readable and non-negative attempt count. */
  predicate Complete(r: Record, id: Id) {
    r.Full? && r.id == id && Attempts(r).Some? && Attempts(r).value >= 0
  }

  /** The relay that `try` passes on: the stored text, or nil when it is empty. */
  function RelayOf(r: Record): Option<string>
    requires r.Full?
  {
    if r.relay == "" then None else Some(r.relay)
  }

  predicate Carries(r: Record, mail: Mail) {
    r.Full? && r.from == mail.from && r.to == mail.to && r.data == mail.data && mail.relay == Some(r.relay)
  }

  /** The relay of a queued email as `try` passes it on: a URL with an empty text has become nil. */
  function Passed(relay: Option<string>): Option<string> { if relay == Some("") then None else relay }

  /** Which first answers send an email to the queue (internal/bot/email.go, shouldQueue). */
  predicate ShouldQueue(message: string) {
    var m := TrimSpace(message);
    HasPrefix(m, "4") || Contains(m, "450") || Contains(m, "451") || Contains(m, "greylisted")
  }

  /** A configured number, where zero stands for the default. */
  function OrDefault(configured: int, default: int): int {
    if configured == 0 then default else configured
  }

  lemma NewRecordComplete(id: Id, mail: Mail)
    requires mail.relay.Some?
    ensures Complete(NewRecord(id, mail), id) && Attempts(NewRecord(id, mail)) == Some(0)
    ensures Carries(NewRecord(id, mail), mail)
  {
    AtoiOfItoa(0);
    assert Itoa(0) == "0";
  }

  lemma BumpComplete(r: Record, id: Id, n: int)
    requires Complete(r, id) && n >= 0
    ensures Complete(r.(attempts := Itoa(n)), id) && Attempts(r.(attempts := Itoa(n))) == Some(n)
  {
    AtoiOfItoa(n);
  }

  /** `word` is somewhere in `text`. */
  ghost predicate Within(word: string, text: string) { exists before, after :: text == before + word + after }

  lemma WithinExact(word: string, text: string)
    ensures Within(word, text) <==> Contains(text, word)
  {
    if Within(word, text) {
      var before, after :| text == before + word + after;
      assert text[|before|..|before| + |word|] == word;
      assert OccursAt(text, word, |before|);
    }
    if Contains(text, word) {
      var i := Index(text, word).value;
      assert text == text[..i] + word + text[i + |word|..];
    }
  }

  /** The first answers that queue an email, on a text without outer white space: those that begin with a 4, or have
      450, 451 or "greylisted" in them. White space around an answer makes no difference. */
  lemma ShouldQueueExact(a: string, text: string, b: string)
    requires Text.Blank(a) && Text.Blank(b) && Trimmed(text)
    ensures ShouldQueue(a + text + b) <==>
      || (text != "" && text[0] == '4')
      || Within("450", text) || Within("451", text) || Within("greylisted", text)
  {
    TrimSpaceSkips(a, text, b);
    TrimSpaceFixed(text);
    WithinExact("450", text);
    WithinExact("451", text);
    WithinExact("greylisted", text);
    hide Within, Contains, TrimSpace, Trimmed;
    assert "4" <= text <==> text != "" && text[0] == '4';
  }

  /** The settings that a pass uses: as they are, or 10 and 100 where they are zero. */
  lemma SettingsUsed(batch: int, retries: int)
    ensures OrDefault(batch, DEFAULT_BATCH) == 10 <==> batch in {0, 10}
    ensures OrDefault(retries, DEFAULT_RETRIES) == 100 <==> retries in {0, 100}
    ensures batch != 0 ==> OrDefault(batch, DEFAULT_BATCH) == batch
    ensures retries != 0 ==> OrDefault(retries, DEFAULT_RETRIES) == retries
  {}
}
