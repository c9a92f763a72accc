/**
 Config::load: collecting the servers that answer the discovery broadcast,
 one entry per address, with a fallback when there is none.
 */
module Discovery {

  /** A field of a reply: missing, of the type the client asks for, or of another type. */
  datatype Field<T> = Absent | Present(value: T) | IllTyped

  datatype Reply = Reply(
    isServerResponse: bool,
    hostname: Field<string>,
    port: Field<int>,
    wsMain: Field<int>,
    wsStats: Field<int>,
    wsFiles: Field<int>,
    wsDesktop: Field<int>)

  /** One round of the receive loop: nothing there, a socket error, text that is not JSON, or a reply from an address. */
  datatype Receipt = NoData | SocketError | Garbage | Datagram(ip: string, reply: Reply)

  datatype ServerConfig = ServerConfig(
    name: string, ip: string, port: int, wsMain: int, wsStats: int, wsFiles: int, wsDesktop: int)

  const FALLBACK := ServerConfig("server01", "127.0.0.1", 2030, 2040, 2041, 2042, 2043)

  /** json::value(key, default): throws on a value of another type. */
  function ValueOr<T>(f: Field<T>, default: T): T
    requires !f.IllTyped?
  {
    if f.Present? then f.value else default
  }

  predicate WellTyped(r: Reply) {
    && !r.hostname.IllTyped? && !r.port.IllTyped? && !r.wsMain.IllTyped?
    && !r.wsStats.IllTyped? && !r.wsFiles.IllTyped? && !r.wsDesktop.IllTyped?
  }

  function ConfigOf(ip: string, r: Reply): ServerConfig
    requires WellTyped(r)
  {
    ServerConfig(ValueOr(r.hostname, "unknown"), ip, ValueOr(r.port, 2030), ValueOr(r.wsMain, 2040),
                 ValueOr(r.wsStats, 2041), ValueOr(r.wsFiles, 2042), ValueOr(r.wsDesktop, 2043))
  }

  /** Does this receipt come from a server? */
  predicate Answers(r: Receipt) {
    r.Datagram? && r.reply.isServerResponse
  }

  /** The address's first answer is at this position. */
  predicate FirstAnswer(receipts: seq<Receipt>, i: nat) {
    && i < |receipts| && Answers(receipts[i])
    && forall j :: 0 <= j < i && Answers(receipts[j]) ==> receipts[j].ip != receipts[i].ip
  }

  /** The entries: for every address in first-answer order, what its first answer says, if that is well typed. */
  function Entries(receipts: seq<Receipt>): seq<ServerConfig> {
    if receipts == [] then [] else
    var i := |receipts| - 1;
    Entries(receipts[..i])
    + if FirstAnswer(receipts, i) && WellTyped(receipts[i].reply) then [ConfigOf(receipts[i].ip, receipts[i].reply)] else []
  }

  function Loaded(receipts: seq<Receipt>): (servers: seq<ServerConfig>)
    ensures servers != []
  {
    if Entries(receipts) == [] then [FALLBACK] else Entries(receipts)
  }

  /** The receive loop; the address is noted before the fields are read, so a bad field loses it for good. */
  method Load(receipts: seq<Receipt>) returns (servers: seq<ServerConfig>)
    ensures servers == Loaded(receipts)
  {
    servers := [];
    var discovered: set<string> := {};
    for i := 0 to |receipts|
      invariant servers == Entries(receipts[..i])
      invariant forall ip :: ip in discovered <==> exists j :: 0 <= j < i && Answers(receipts[j]) && receipts[j].ip == ip
    {
      ghost var seen := receipts[..i + 1];
      assert seen[..i] == receipts[..i];
      assert forall j :: 0 <= j <= i ==> seen[j] == receipts[j];
      var r := receipts[i];
      if Answers(r) && r.ip !in discovered {
        assert FirstAnswer(seen, i);
        discovered := discovered + {r.ip};
        if WellTyped(r.reply) {
          servers := servers + [ConfigOf(r.ip, r.reply)];
        }
      } else {
        assert !FirstAnswer(seen, i);
      }
    }
    assert receipts[..|receipts|] == receipts;
    if servers == [] {
      servers := [FALLBACK];
    }
  }

  lemma FirstAnswerPrefix(receipts: seq<Receipt>, n: nat, i: nat)
    requires n <= |receipts|
    ensures FirstAnswer(receipts[..n], i) <==> i < n && FirstAnswer(receipts, i)
  {
    if i < n {
      assert forall j :: 0 <= j <= i ==> receipts[..n][j] == receipts[j];
    }
  }

  predicate Carries<T(==)>(f: Field<T>, default: T, value: T) {
    match f
    case Absent => value == default
    case Present(v) => value == v
    case IllTyped => false
  }

  /** An entry as a reply from an address describes it, every missing field replaced by its default. */
  predicate Describes(s: ServerConfig, ip: string, r: Reply) {
    && s.ip == ip
    && Carries(r.hostname, "unknown", s.name)
    && Carries(r.port, 2030, s.port)
    && Carries(r.wsMain, 2040, s.wsMain)
    && Carries(r.wsStats, 2041, s.wsStats)
    && Carries(r.wsFiles, 2042, s.wsFiles)
    && Carries(r.wsDesktop, 2043, s.wsDesktop)
  }

  /** Where each entry comes from. */
  lemma {:induction false} EntrySource(receipts: seq<Receipt>, k: nat) returns (i: nat)
    requires k < |Entries(receipts)|
    ensures FirstAnswer(receipts, i) && WellTyped(receipts[i].reply)
    ensures Describes(Entries(receipts)[k], receipts[i].ip, receipts[i].reply)
    ensures |Entries(receipts[..i])| == k
  {
    var last := |receipts| - 1;
    var before := Entries(receipts[..last]);
    if k < |before| {
      i := EntrySource(receipts[..last], k);
      FirstAnswerPrefix(receipts, last, i);
      assert receipts[..last][..i] == receipts[..i];
    } else {
      i := last;
    }
  }

  /** Every address whose first answer is well typed has its entry. */
  lemma {:induction false} AnswerHasEntry(receipts: seq<Receipt>, i: nat)
    requires FirstAnswer(receipts, i) && WellTyped(receipts[i].reply)
    ensures |Entries(receipts[..i])| < |Entries(receipts)|
    ensures Describes(Entries(receipts)[|Entries(receipts[..i])|], receipts[i].ip, receipts[i].reply)
  {
    var last := |receipts| - 1;
    if i < last {
      FirstAnswerPrefix(receipts, last, i);
      AnswerHasEntry(receipts[..last], i);
      assert receipts[..last][..i] == receipts[..i];
    }
  }

  /** No address has two entries. */
  lemma EntriesDistinct(receipts: seq<Receipt>, k: nat, m: nat)
    requires k < m < |Entries(receipts)|
    ensures Entries(receipts)[k].ip != Entries(receipts)[m].ip
  {
    var i := EntrySource(receipts, k);
    var j := EntrySource(receipts, m);
    assert i != j;
    if i > j {
      assert receipts[j].ip != receipts[i].ip;
    }
  }

  /** Entries keep the order in which their addresses first answered. */
  lemma {:induction false} EntriesGrow(receipts: seq<Receipt>, i: nat, j: nat)
    requires i <= j <= |receipts|
    ensures Entries(receipts[..i]) <= Entries(receipts[..j])
    decreases j
  {
    if i < j {
      assert receipts[..j][..j - 1] == receipts[..j - 1];
      EntriesGrow(receipts, i, j - 1);
    }
  }

  lemma EntriesOrdered(receipts: seq<Receipt>, i: nat, j: nat)
    requires i < j && FirstAnswer(receipts, i) && FirstAnswer(receipts, j)
    requires WellTyped(receipts[i].reply) && WellTyped(receipts[j].reply)
    ensures |Entries(receipts[..i])| < |Entries(receipts[..j])|
  {
    assert receipts[..i + 1][..i] == receipts[..i];
    FirstAnswerPrefix(receipts, i + 1, i);
    EntriesGrow(receipts, i + 1, j);
  }

  /** Has this address an entry? */
  predicate Listed(servers: seq<ServerConfig>, ip: string) {
    exists s <- servers :: s.ip == ip
  }

  lemma ListedSource(receipts: seq<Receipt>, ip: string) returns (i: nat)
    requires Listed(Entries(receipts), ip)
    ensures FirstAnswer(receipts, i) && WellTyped(receipts[i].reply) && receipts[i].ip == ip
  {
    var s :| s in Entries(receipts) && s.ip == ip;
    var k: nat :| k < |Entries(receipts)| && Entries(receipts)[k] == s;
    i := EntrySource(receipts, k);
  }

  /** An answering address is listed exactly when its first answer has no field of a wrong type. */
  lemma ListedIff(receipts: seq<Receipt>, i: nat)
    requires FirstAnswer(receipts, i)
    ensures Listed(Entries(receipts), receipts[i].ip) <==> WellTyped(receipts[i].reply)
  {
    if WellTyped(receipts[i].reply) {
      AnswerHasEntry(receipts, i);
      assert Entries(receipts)[|Entries(receipts[..i])|] in Entries(receipts);
    }
    if Listed(Entries(receipts), receipts[i].ip) {
      var j := ListedSource(receipts, receipts[i].ip);
      assert j == i;
    }
  }

  /** The list is never empty, and it is the fallback exactly when no address is listed. */
  lemma FallbackIff(receipts: seq<Receipt>)
    ensures Entries(receipts) == [] <==> forall i: nat :: FirstAnswer(receipts, i) ==> !WellTyped(receipts[i].reply)
    ensures Loaded(receipts) == if Entries(receipts) != [] then Entries(receipts)
                                else [ServerConfig("server01", "127.0.0.1", 2030, 2040, 2041, 2042, 2043)]
  {
    if Entries(receipts) == [] {
      forall i: nat | FirstAnswer(receipts, i)
        ensures !WellTyped(receipts[i].reply)
      {
        ListedIff(receipts, i);
      }
    } else {
      var i := EntrySource(receipts, 0);
    }
  }

  /** One badly typed field and an otherwise perfect second answer: the server stays unlisted. */
  lemma BadFieldLosesServer(ip: string, name: string)
    ensures var bad := Reply(true, Present(name), IllTyped, Absent, Absent, Absent, Absent);
            var good := Reply(true, Present(name), Present(2030), Absent, Absent, Absent, Absent);
            Loaded([Datagram(ip, bad), Datagram(ip, good)]) == [FALLBACK]
  {
    var bad := Reply(true, Present(name), IllTyped, Absent, Absent, Absent, Absent);
    var good := Reply(true, Present(name), Present(2030), Absent, Absent, Absent, Absent);
    var receipts := [Datagram(ip, bad), Datagram(ip, good)];
    assert Answers(receipts[0]) && receipts[0].ip == receipts[1].ip;
    assert !FirstAnswer(receipts, 1) && !WellTyped(receipts[0].reply);
    forall i: nat | FirstAnswer(receipts, i)
      ensures !WellTyped(receipts[i].reply)
    {
    }
    FallbackIff(receipts);
  }
}
