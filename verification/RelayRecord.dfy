/**
 Which notifications are worth landing, and the natural key one lands under
 (extensions/relay-probe/record.go).
 */
module RelayRecord {
  import opened Wrappers
  import opened RelayErrors
  import opened RelayFeed

  const DIRECTED_TYPES: set<string> := {"dm", "dm_thread_reply", "mention", "channel_mention", "thread_reply"}

  predicate Directed(item: Item) {
    item.kind in DIRECTED_TYPES && !item.senderIsBot
  }

  datatype ProviderUser = ProviderUser(id: string, workspaceId: string, email: string, name: string)

  /** What a sender nobody could resolve looks like. */
  const UNKNOWN_SENDER := ProviderUser("", "", "", "")

  datatype Record = Record(key: string, addresses: seq<string>, raw: Item)

  function DigitOf(d: nat): char
    requires d < 10
  {
    "0123456789"[d]
  }

  function Digits(n: nat): string {
    if n < 10 then [DigitOf(n)] else Digits(n / 10) + [DigitOf(n % 10)]
  }

  function Decimal(n: int): string {
    if n < 0 then "-" + Digits(-n) else Digits(n)
  }

  function Key(workspace: string, id: int): string { workspace + ":" + Decimal(id) }

  /** The record one directed notification lands as, or nothing when its sender has no address. */
  function RecordFor(item: Item, sender: ProviderUser, member: ProviderUser, workspace: string): Option<Record> {
    if sender.email == "" then None
    else Some(Record(Key(workspace, item.id), [sender.email, member.email], item))
  }

  /** A record the core took: its key, the member it was ingested for, and the notification as received. */
  datatype Landed = Landed(key: string, member: string, item: Item)

  /**
   How the core answers one ingest: the record is in it, or was deliberately not
   kept and a breadcrumb says so under its key, or is refused. The first two are
   successes.
   */
  datatype Answer = Accepted | Skipped | Refused(error: Error)

  function KeysOf(landed: seq<Landed>): set<string> { set r | r in landed :: r.key }

  /** Idempotent ingest: a key the core already holds changes nothing. */
  function Ingest(landed: seq<Landed>, record: Landed): seq<Landed> {
    if record.key in KeysOf(landed) then landed else landed + [record]
  }

  function ValueOf(s: string): nat {
    if s == "" then 0
    else ValueOf(s[..|s| - 1]) * 10 + (if '0' <= s[|s| - 1] <= '9' then (s[|s| - 1] - '0') as nat else 0)
  }

  lemma {:induction false} DigitsRoundTrip(n: nat)
    ensures ValueOf(Digits(n)) == n
    ensures forall c :: c in Digits(n) ==> '0' <= c <= '9'
  {
    if n < 10 {
      assert Digits(n)[..0] == "";
    } else {
      DigitsRoundTrip(n / 10);
      assert Digits(n)[..|Digits(n)| - 1] == Digits(n / 10);
    }
  }

  lemma DecimalInjective(a: int, b: int)
    requires Decimal(a) == Decimal(b)
    ensures a == b
  {
    var x, y := if a < 0 then -a else a, if b < 0 then -b else b;
    DigitsRoundTrip(x);
    DigitsRoundTrip(y);
    assert Decimal(a)[0] == '-' <==> a < 0 by {
      assert Digits(x)[0] in Digits(x);
    }
    assert Decimal(b)[0] == '-' <==> b < 0 by {
      assert Digits(y)[0] in Digits(y);
    }
    if a < 0 {
      assert Digits(x) == Decimal(a)[1..] == Decimal(b)[1..] == Digits(y);
    }
  }

  lemma LastColon(workspace: string, id: int)
    ensures Key(workspace, id)[|workspace|] == ':'
    ensures forall i :: |workspace| < i < |Key(workspace, id)| ==> Key(workspace, id)[i] != ':'
  {
    DigitsRoundTrip(if id < 0 then -id else id);
    var d := Decimal(id);
    assert ':' !in d;
    assert forall i :: |workspace| < i < |Key(workspace, id)| ==> Key(workspace, id)[i] == d[i - |workspace| - 1];
  }

  /**
   Distinct notifications never share a key, even where a workspace name itself
   contains colons: the key's last colon is the one before the id.
   */
  lemma KeyInjective(w1: string, id1: int, w2: string, id2: int)
    requires Key(w1, id1) == Key(w2, id2)
    ensures w1 == w2 && id1 == id2
  {
    var key := Key(w1, id1);
    LastColon(w1, id1);
    LastColon(w2, id2);
    assert w1 == key[..|w1|] && w2 == key[..|w2|];
    assert Decimal(id1) == key[|w1| + 1..] && Decimal(id2) == key[|w2| + 1..];
    DecimalInjective(id1, id2);
  }

  /** The key is only as steady as the workspace id it is built from: under a new one, the same notification lands again. */
  lemma NewWorkspaceLandsAgain(landed: seq<Landed>, member: string, item: Item, w1: string, w2: string)
    requires w1 != w2 && Key(w2, item.id) !in KeysOf(landed)
    ensures var once := Ingest(landed, Landed(Key(w1, item.id), member, item));
            var again := Landed(Key(w2, item.id), member, item);
            Ingest(once, again) == once + [again]
  {
    if Key(w1, item.id) == Key(w2, item.id) {
      KeyInjective(w1, item.id, w2, item.id);
    }
  }
}
