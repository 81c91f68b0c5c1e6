/** The process-wide registry of MQTT client ids: one client per id and broker, as
    sections 3.1.3.1 and 3.1.4 of OASIS MQTT 3.1.1 ask. */
module MqttClientIds {
  import opened Texts

  /** clientKey: host, port and client id in one text. */
  function ClientKey(host: string, port: nat, clientId: string): string {
    host + ":" + Decimal(port) + "\n" + clientId
  }

  /** Hosts without a line break cannot share a key unless host, port and id agree. */
  lemma ClientKeyIsInjective(host: string, port: nat, id: string, host': string, port': nat, id': string)
    requires '\n' !in host && '\n' !in host'
    requires ClientKey(host, port, id) == ClientKey(host', port', id')
    ensures host == host' && port == port' && id == id'
  {
    var a, b := host + ":" + Decimal(port), host' + ":" + Decimal(port');
    assert ClientKey(host, port, id) == a + "\n" + id && ClientKey(host', port', id') == b + "\n" + id';
    SameFirstBreak(a, id, b, id');
    JoinedOnce(host, Decimal(port), host', Decimal(port'), ':');
    ParsedDecimal(port);
    ParsedDecimal(port');
  }

  lemma FirstBreak(a: string, x: string)
    requires '\n' !in a
    ensures var s := a + "\n" + x;
      s[|a|] == '\n' && s[..|a|] == a && s[|a| + 1..] == x && forall k :: 0 <= k < |a| ==> s[k] != '\n'
  {
  }

  lemma SameFirstBreak(a: string, x: string, b: string, y: string)
    requires '\n' !in a && '\n' !in b
    requires a + "\n" + x == b + "\n" + y
    ensures a == b && x == y
  {
    FirstBreak(a, x);
    FirstBreak(b, y);
  }

  /** A line break in a host is what the key cannot carry: two different clients, one key. */
  lemma ClientKeyNeedsPlainHosts(host: string, port: nat, port': nat, id: string)
    ensures ClientKey(host, port, "x:" + Decimal(port') + "\n" + id) ==
            ClientKey(host + ":" + Decimal(port) + "\n" + "x", port', id)
  {
  }

  /** The second host runs on, after the first client's host and port and a line break,
      for as long as the first id does up to the second port and id. */
  ghost predicate RunsOn(host: string, port: nat, id: string, host': string, port': nat, id': string) {
    exists y: string ::
      host' == host + ":" + Decimal(port) + "\n" + y && id == y + ":" + Decimal(port') + "\n" + id'
  }

  /** Two clients have one key exactly if they are the same, or one's host runs on into
      the other's id. */
  lemma SameKeyIff(host: string, port: nat, id: string, host': string, port': nat, id': string)
    ensures ClientKey(host, port, id) == ClientKey(host', port', id') <==>
      || (host == host' && port == port' && id == id')
      || RunsOn(host, port, id, host', port', id')
      || RunsOn(host', port', id', host, port, id)
  {
    if RunsOn(host, port, id, host', port', id') {
      RunsOnShares(host, port, id, host', port', id');
    }
    if RunsOn(host', port', id', host, port, id) {
      RunsOnShares(host', port', id', host, port, id);
    }
    if ClientKey(host, port, id) == ClientKey(host', port', id') {
      if |Address(host, port)| <= |Address(host', port')| {
        SharedRunsOn(host, port, id, host', port', id');
      } else {
        SharedRunsOn(host', port', id', host, port, id);
      }
    }
  }

  function Address(host: string, port: nat): string {
    host + ":" + Decimal(port)
  }

  lemma RunsOnShares(host: string, port: nat, id: string, host': string, port': nat, id': string)
    requires RunsOn(host, port, id, host', port', id')
    ensures ClientKey(host, port, id) == ClientKey(host', port', id')
  {
    var y: string :|
      host' == host + ":" + Decimal(port) + "\n" + y && id == y + ":" + Decimal(port') + "\n" + id';
    var a, d := Address(host, port), Decimal(port');
    assert a + "\n" + (y + ":" + d + "\n" + id') == (a + "\n" + y) + ":" + d + "\n" + id';
  }

  lemma SharedRunsOn(host: string, port: nat, id: string, host': string, port': nat, id': string)
    requires ClientKey(host, port, id) == ClientKey(host', port', id')
    requires |Address(host, port)| <= |Address(host', port')|
    ensures (host == host' && port == port' && id == id') || RunsOn(host, port, id, host', port', id')
  {
    var a, b := Address(host, port), Address(host', port');
    LongerStart(a, id, b, id');
    if |a| == |b| {
      JoinedOnce(host, Decimal(port), host', Decimal(port'), ':');
      ParsedDecimal(port);
      ParsedDecimal(port');
    } else {
      var z := b[|a| + 1..];
      var d := Decimal(port');
      assert b[|a|] == '\n' && '\n' !in d;
      BreakIsInHost(host', d, |a|);
      var y := host'[|a| + 1..];
      assert z == y + ":" + d;
      assert host' == host'[..|a|] + "\n" + y && host'[..|a|] == b[..|a|] == a;
    }
  }

  /** Of two equal joins, the one with the longer left part starts with the other's. */
  lemma LongerStart(a: string, x: string, b: string, y: string)
    requires a + "\n" + x == b + "\n" + y && |a| <= |b|
    ensures b[..|a|] == a && (|a| == |b| ==> x == y)
    ensures |a| < |b| ==> b[|a|] == '\n' && x == b[|a| + 1..] + "\n" + y
  {
    var s, t := a + "\n" + x, b + "\n" + y;
    assert s[..|a|] == a && t[..|a|] == b[..|a|];
    assert s[|a| + 1..] == x;
    if |a| < |b| {
      assert s[|a|] == '\n' && t[|a|] == b[|a|];
      assert t[|a| + 1..] == b[|a| + 1..] + "\n" + y;
    } else {
      assert t[|a| + 1..] == y;
    }
  }

  /** A line break before the port of an address is in its host. */
  lemma BreakIsInHost(host: string, d: string, n: nat)
    requires '\n' !in d && n < |host + ":" + d| && (host + ":" + d)[n] == '\n'
    ensures n < |host| && host[n] == '\n'
    ensures (host + ":" + d)[..n] == host[..n] && (host + ":" + d)[n + 1..] == host[n + 1..] + ":" + d
  {
    AfterHost(host, d, n);
  }

  lemma AfterHost(host: string, d: string, n: nat)
    ensures |host| < n < |host + ":" + d| ==> (host + ":" + d)[n] in d
  {
  }

  predicate IsSafe(c: char) {
    'a' <= c <= 'z' || 'A' <= c <= 'Z' || '0' <= c <= '9' || c == '-' || c == '_'
  }

  function Sanitized(value: string): (out: string)
    ensures out != "" && forall c :: c in out ==> IsSafe(c)
  {
    if value == "" then "adapter"
    else seq(|value|, i requires 0 <= i < |value| => if IsSafe(value[i]) then value[i] else '-')
  }

  /** A text of letters, digits, '-' and '_' is kept as it is, so sanitizing twice is
      sanitizing once; any other keeps its length, with '-' where it had another character. */
  lemma SanitizedKeepsSafe(value: string)
    ensures value != "" && (forall c :: c in value ==> 'a' <= c <= 'z' || 'A' <= c <= 'Z' || '0' <= c <= '9' || c in "-_") ==>
      Sanitized(value) == value
    ensures Sanitized(Sanitized(value)) == Sanitized(value)
    ensures value != "" ==> |Sanitized(value)| == |value| && forall i :: 0 <= i < |value| ==>
      Sanitized(value)[i] == value[i] || (Sanitized(value)[i] == '-' && !IsSafe(value[i]))
  {
    var once := Sanitized(value);
    assert forall i :: 0 <= i < |once| ==> once[i] in once;
    assert forall i :: 0 <= i < |value| ==> value[i] in value;
  }

  function GeneratedId(adapterId: string, serial: nat): string {
    "vf." + Sanitized(adapterId) + "." + Decimal(serial)
  }

  /** Generated ids differ whenever their serial numbers do, whatever the adapter ids. */
  lemma GeneratedIdsDiffer(adapterId: string, serial: nat, adapterId': string, serial': nat)
    requires serial != serial'
    ensures GeneratedId(adapterId, serial) != GeneratedId(adapterId', serial')
  {
    if GeneratedId(adapterId, serial) == GeneratedId(adapterId', serial') {
      JoinedOnce("vf." + Sanitized(adapterId), Decimal(serial), "vf." + Sanitized(adapterId'), Decimal(serial'), '.');
      ParsedDecimal(serial);
      ParsedDecimal(serial');
    }
  }

  class ClientIdRegistry {
    var claimed: set<string>
    var serial: nat

    constructor ()
      ensures claimed == {} && serial == 1
    {
      claimed, serial := {}, 1;
    }

    /** sanitizeClientFragment: character by character. */
    method SanitizeClientFragment(value: string) returns (out: string)
      ensures out == Sanitized(value)
    {
      out := "";
      for i := 0 to |value|
        invariant |out| == i
        invariant forall j :: 0 <= j < i ==> out[j] == if IsSafe(value[j]) then value[j] else '-'
      {
        out := out + [if IsSafe(value[i]) then value[i] else '-'];
      }
      if out == "" {
        return "adapter";
      }
    }

    method ResolveClientId(configured: string, adapterId: string) returns (id: string)
      modifies this`serial
      ensures id != ""
      ensures id == if configured != "" then configured else GeneratedId(adapterId, old(serial))
      ensures serial == if configured != "" then old(serial) else old(serial) + 1
    {
      if configured != "" {
        return configured;
      }
      var fragment := SanitizeClientFragment(adapterId);
      id := "vf." + fragment + "." + Decimal(serial);
      serial := serial + 1;
    }

    method Claim(key: string) returns (ok: bool)
      modifies this`claimed
      ensures ok <==> key !in old(claimed)
      ensures claimed == old(claimed) + {key}
    {
      if key in claimed {
        return false;
      }
      claimed := claimed + {key};
      return true;
    }

    method Release(key: string)
      modifies this`claimed
      ensures claimed == old(claimed) - {key}
    {
      claimed := claimed - {key};
    }
  }

  // ----- every adapter of the process, in any interleaving -----

  datatype Phase = Out | Connecting | Up

  /** One adapter as the registry sees it; active is its active client id. */
  datatype Client = Client(host: string, port: nat, configured: string, active: string, phase: Phase)

  datatype Process = Process(claimed: set<string>, serial: nat, clients: map<string, Client>)

  function KeyOf(c: Client): string {
    ClientKey(c.host, c.port, c.active)
  }

  /** Begin: resolve and claim, inside connect. Finish: the rest of connect. Drop:
      a fault or a disconnect of an adapter that is not inside connect. */
  datatype Act = Begin(a: string) | Finish(a: string, ok: bool) | Drop(a: string)

  predicate Possible(p: Process, t: Act) {
    && t.a in p.clients
    && match t
       case Begin(a) => p.clients[a].phase == Out
       case Finish(a, _) => p.clients[a].phase == Connecting
       case Drop(a) => p.clients[a].phase != Connecting
  }

  function IdFor(p: Process, a: string): string
    requires a in p.clients
  {
    var c := p.clients[a];
    if c.configured != "" then c.configured else GeneratedId(a, p.serial)
  }

  function Released(p: Process, a: string): Process
    requires a in p.clients
  {
    var c := p.clients[a];
    p.(claimed := if c.active == "" then p.claimed else p.claimed - {KeyOf(c)},
       clients := p.clients[a := c.(active := "", phase := Out)])
  }

  function AfterAct(p: Process, t: Act): Process
    requires Possible(p, t)
  {
    var c := p.clients[t.a];
    match t
    case Begin(a) =>
      var id := IdFor(p, a);
      var key := ClientKey(c.host, c.port, id);
      var p' := if c.configured != "" then p else p.(serial := p.serial + 1);
      if key in p.claimed then Released(p', a)
      else p'.(claimed := p.claimed + {key}, clients := p.clients[a := c.(active := id, phase := Connecting)])
    case Finish(a, ok) => if ok then p.(clients := p.clients[a := c.(phase := Up)]) else Released(p, a)
    case Drop(a) => Released(p, a)
  }

  /** The claimed keys are exactly those of the adapters with an active id, one adapter
      per key, and an adapter that is out holds none. */
  ghost predicate ClaimsOk(p: Process) {
    && (forall k :: k in p.claimed <==> exists a :: a in p.clients && p.clients[a].active != "" && KeyOf(p.clients[a]) == k)
    && (forall a, b :: a in p.clients && b in p.clients && a != b && p.clients[a].active != "" && p.clients[b].active != "" ==>
          KeyOf(p.clients[a]) != KeyOf(p.clients[b]))
    && (forall a :: a in p.clients ==> (p.clients[a].active == "" <==> p.clients[a].phase == Out))
  }

  lemma ReleaseKeepsClaims(p: Process, a: string)
    requires ClaimsOk(p) && a in p.clients
    ensures ClaimsOk(Released(p, a))
  {
    var p' := Released(p, a);
    forall k
      ensures k in p'.claimed <==> exists b :: b in p'.clients && p'.clients[b].active != "" && KeyOf(p'.clients[b]) == k
    {
      if k in p'.claimed {
        var b :| b in p.clients && p.clients[b].active != "" && KeyOf(p.clients[b]) == k;
        assert b != a && p'.clients[b] == p.clients[b];
      }
      if b :| b in p'.clients && p'.clients[b].active != "" && KeyOf(p'.clients[b]) == k {
        assert b != a && p.clients[b] == p'.clients[b];
      }
    }
  }

  lemma ClaimKeepsClaims(p: Process, a: string)
    requires ClaimsOk(p) && Possible(p, Begin(a))
    requires ClientKey(p.clients[a].host, p.clients[a].port, IdFor(p, a)) !in p.claimed
    ensures ClaimsOk(AfterAct(p, Begin(a)))
  {
    var p' := AfterAct(p, Begin(a));
    var key := KeyOf(p'.clients[a]);
    assert IdFor(p, a) != "";
    forall k
      ensures k in p'.claimed <==> exists b :: b in p'.clients && p'.clients[b].active != "" && KeyOf(p'.clients[b]) == k
    {
      if k in p.claimed {
        var b :| b in p.clients && p.clients[b].active != "" && KeyOf(p.clients[b]) == k;
        assert p'.clients[b] == p.clients[b];
      }
      if b :| b in p'.clients && p'.clients[b].active != "" && KeyOf(p'.clients[b]) == k {
        assert b != a ==> p.clients[b] == p'.clients[b];
      }
    }
  }

  lemma ActKeepsClaims(p: Process, t: Act)
    requires ClaimsOk(p) && Possible(p, t)
    ensures ClaimsOk(AfterAct(p, t))
  {
    match t
    case Begin(a) =>
      if ClientKey(p.clients[a].host, p.clients[a].port, IdFor(p, a)) !in p.claimed {
        ClaimKeepsClaims(p, a);
      } else {
        ReleaseKeepsClaims(if p.clients[a].configured != "" then p else p.(serial := p.serial + 1), a);
      }
    case Finish(a, ok) =>
      if ok {
        FinishKeepsClaims(p, a);
      } else {
        ReleaseKeepsClaims(p, a);
      }
    case Drop(a) =>
      ReleaseKeepsClaims(p, a);
  }

  lemma FinishKeepsClaims(p: Process, a: string)
    requires ClaimsOk(p) && Possible(p, Finish(a, true))
    ensures ClaimsOk(AfterAct(p, Finish(a, true)))
  {
    var p' := AfterAct(p, Finish(a, true));
    assert forall b :: b in p.clients ==>
      p'.clients[b].active == p.clients[b].active && KeyOf(p'.clients[b]) == KeyOf(p.clients[b]);
    forall k
      ensures k in p'.claimed <==> exists b :: b in p'.clients && p'.clients[b].active != "" && KeyOf(p'.clients[b]) == k
    {
      if k in p.claimed {
        var b :| b in p.clients && p.clients[b].active != "" && KeyOf(p.clients[b]) == k;
        assert p'.clients[b].active != "" && KeyOf(p'.clients[b]) == k;
      }
    }
  }

  /** A whole connect, as the adapter performs it: with a taken key nothing is claimed or
      freed, and with a free one the key stays claimed exactly if the connect succeeds. */
  lemma ConnectClaims(p: Process, a: string, ok: bool)
    requires ClaimsOk(p) && Possible(p, Begin(a))
    ensures var c := p.clients[a];
      var key := ClientKey(c.host, c.port, IdFor(p, a));
      var p' := AfterAct(p, Begin(a));
      if key in p.claimed then p'.claimed == p.claimed && p'.clients == p.clients
      else
        && Possible(p', Finish(a, ok)) && ClaimsOk(p')
        && AfterAct(p', Finish(a, ok)).claimed == (if ok then p.claimed + {key} else p.claimed)
        && AfterAct(p', Finish(a, ok)).clients[a] ==
             if ok then c.(active := IdFor(p, a), phase := Up) else c
  {
    ActKeepsClaims(p, Begin(a));
  }

  /** A fault or a disconnect of an adapter that is up frees its key and nobody else's, so
      the same client may connect again; of one that is out it changes nothing. */
  lemma DropFrees(p: Process, a: string)
    requires ClaimsOk(p) && Possible(p, Drop(a))
    ensures var c, p' := p.clients[a], AfterAct(p, Drop(a));
      && p'.clients == p.clients[a := c.(active := "", phase := Out)] && p'.serial == p.serial
      && (c.phase == Up ==> ClientKey(c.host, c.port, c.active) in p.claimed)
      && p'.claimed == if c.phase == Up then p.claimed - {ClientKey(c.host, c.port, c.active)} else p.claimed
  {
  }

  ghost predicate IsRun(states: seq<Process>, acts: seq<Act>) {
    && |states| == |acts| + 1
    && forall i :: 0 <= i < |acts| ==> Possible(states[i], acts[i]) && states[i + 1] == AfterAct(states[i], acts[i])
  }

  /** In every reachable state of the process, however the connects interleave. */
  lemma {:induction false} RunKeepsClaims(states: seq<Process>, acts: seq<Act>, n: nat)
    requires IsRun(states, acts) && n <= |acts| && ClaimsOk(states[0])
    ensures ClaimsOk(states[n])
  {
    if n > 0 {
      RunKeepsClaims(states, acts, n - 1);
      assert states[n] == AfterAct(states[n - 1], acts[n - 1]);
      ActKeepsClaims(states[n - 1], acts[n - 1]);
    }
  }

  /** The adapter generates an id at this act. */
  predicate Generates(p: Process, t: Act) {
    t.Begin? && t.a in p.clients && p.clients[t.a].configured == ""
  }

  lemma {:induction false} SerialGrows(states: seq<Process>, acts: seq<Act>, i: nat, j: nat)
    requires IsRun(states, acts) && i <= j <= |acts|
    ensures states[i].serial <= states[j].serial
    ensures i < j && Generates(states[i], acts[i]) ==> states[i].serial < states[j].serial
  {
    if i < j {
      SerialGrows(states, acts, i, j - 1);
      assert states[j] == AfterAct(states[j - 1], acts[j - 1]);
    }
  }

  /** The ids generated along a run are pairwise distinct, refused claims included. */
  lemma GeneratedAreDistinct(states: seq<Process>, acts: seq<Act>, i: nat, j: nat)
    requires IsRun(states, acts) && i < j < |acts|
    requires Generates(states[i], acts[i]) && Generates(states[j], acts[j])
    ensures IdFor(states[i], acts[i].a) != IdFor(states[j], acts[j].a)
  {
    SerialGrows(states, acts, i, j);
    GeneratedIdsDiffer(acts[i].a, states[i].serial, acts[j].a, states[j].serial);
  }

  /** Two connected adapters of one broker never share a client id, and a claim that
      fails leaves the key with the adapter that holds it. */
  lemma NoSharedClientId(p: Process, a: string, b: string)
    requires ClaimsOk(p) && a in p.clients && b in p.clients && a != b
    requires p.clients[a].phase != Out && p.clients[b].phase != Out
    requires p.clients[a].host == p.clients[b].host && p.clients[a].port == p.clients[b].port
    ensures p.clients[a].active != p.clients[b].active
  {
  }

  lemma FailedClaimFreesNothing(p: Process, a: string, b: string)
    requires ClaimsOk(p) && Possible(p, Begin(a)) && b in p.clients && p.clients[b].phase != Out
    requires KeyOf(p.clients[b]) == ClientKey(p.clients[a].host, p.clients[a].port, IdFor(p, a))
    ensures AfterAct(p, Begin(a)).claimed == p.claimed
    ensures AfterAct(p, Begin(a)).clients[b] == p.clients[b]
    ensures AfterAct(p, Begin(a)).clients[a].phase == Out
  {
  }
}
