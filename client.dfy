/** The broker-side client: argument checks, the paho client name, a log
    standing for what the client publishes, and the registry that hands out
    unique client ids. */
module MqttClient {
  import opened Values

  /** The MQTT port used when none is given. */
  const DefaultPort: int := 1883

  /** The largest client id, `(2 << 16) - 1`: ids span 17 bits. */
  const MaxClientId: int := 2 * 0x1_0000 - 1

  type ClientId = id: int | 0 <= id <= MaxClientId

  /** One call of `publish(topic, payload)`. */
  datatype Publication = Publication(topic: string, payload: string)

  // ---------------------------------------------------------------------
  // Constructor argument checks

  /** The checks the constructor makes before anything else: an absent port
      becomes the default; the broker must be a string and the port a
      positive integer, and every violation raises TypeError (a port of zero
      or below included).  On success the effective port is returned. */
  function CheckClientArgs(broker: Arg, port: Arg): (r: Result<int>)
    ensures r.Ok? <==> broker.Str? && (port.NoneArg? || (port.Int? && port.n > 0))
    ensures r.Ok? ==> r.value > 0 && r.value == (if port.NoneArg? then DefaultPort else port.n)
    ensures r.Err? ==> r.error == TypeError
  {
    var p := if port.NoneArg? then Int(DefaultPort) else port;
    if !broker.Str? then Err(TypeError)
    else if !p.Int? then Err(TypeError)
    else if p.n <= 0 then Err(TypeError)
    else Ok(p.n)
  }

  // ---------------------------------------------------------------------
  // The client name: "python-" and the id in upper-case hexadecimal,
  // zero-padded to at least four digits

  predicate IsUpperHexDigit(c: char) {
    '0' <= c <= '9' || 'A' <= c <= 'F'
  }

  function HexDigit(d: nat): (c: char)
    requires d < 16
    ensures IsUpperHexDigit(c)
  {
    if d < 10 then ('0' as int + d) as char else ('A' as int + d - 10) as char
  }

  /** The value of one hexadecimal digit. */
  function DigitValue(c: char): nat
  {
    if '0' <= c <= '9' then c as int - '0' as int
    else if 'A' <= c <= 'F' then c as int - 'A' as int + 10
    else 0
  }

  /** `n` in upper-case hexadecimal, without leading zeros. */
  function Hex(n: nat): (s: string)
    ensures |s| >= 1
    ensures forall i :: 0 <= i < |s| ==> IsUpperHexDigit(s[i])
    ensures n > 0 ==> s[0] != '0'
    decreases n
  {
    if n < 16 then [HexDigit(n)] else Hex(n / 16) + [HexDigit(n % 16)]
  }

  /** Reads hexadecimal digits, most significant first. */
  function ParseHex(s: string): nat
  {
    if s == [] then 0 else 16 * ParseHex(s[..|s| - 1]) + DigitValue(s[|s| - 1])
  }

  function Zeros(k: nat): (z: string)
    ensures |z| == k && forall i :: 0 <= i < k ==> z[i] == '0'
  {
    seq(k, _ => '0')
  }

  /** The format `{:04X}`: hexadecimal, padded with zeros on the left to at
      least four digits. */
  function Hex04(n: nat): (s: string)
    ensures |s| == if |Hex(n)| < 4 then 4 else |Hex(n)|
    ensures forall i :: 0 <= i < |s| ==> IsUpperHexDigit(s[i])
  {
    var h := Hex(n);
    if |h| >= 4 then h else Zeros(4 - |h|) + h
  }

  /** The client id handed to the broker library. */
  function ClientName(id: ClientId): (name: string)
    ensures |name| >= 11 && name[..7] == "python-"
  {
    "python-" + Hex04(id)
  }

  lemma {:induction false} ParseHexOfHex(n: nat)
    ensures ParseHex(Hex(n)) == n
    decreases n
  {
    if n >= 16 {
      var h := Hex(n);
      ParseHexOfHex(n / 16);
      assert h[..|h| - 1] == Hex(n / 16);
    }
  }

  /** Leading zeros do not change the value read. */
  lemma {:induction false} ParseHexLeadingZeros(k: nat, s: string)
    ensures ParseHex(Zeros(k) + s) == ParseHex(s)
    decreases |s|, k
  {
    if s == [] {
      if k > 0 {
        assert Zeros(k) + s == Zeros(k);
        assert Zeros(k)[..k - 1] == Zeros(k - 1);
        ParseHexLeadingZeros(k - 1, []);
        assert Zeros(k - 1) + [] == Zeros(k - 1);
      }
    } else {
      var t := Zeros(k) + s;
      assert t[..|t| - 1] == Zeros(k) + s[..|s| - 1];
      ParseHexLeadingZeros(k, s[..|s| - 1]);
    }
  }

  /** The padded digits of a client name read back as its id. */
  lemma ClientNameParsesBack(id: ClientId)
    ensures ParseHex(ClientName(id)[7..]) == id
  {
    var h := Hex(id);
    assert ClientName(id)[7..] == Hex04(id);
    ParseHexOfHex(id);
    if |h| < 4 {
      ParseHexLeadingZeros(4 - |h|, h);
    }
  }

  /** Distinct ids give distinct client names. */
  lemma ClientNamesDistinct(a: ClientId, b: ClientId)
    requires a != b
    ensures ClientName(a) != ClientName(b)
  {
    ClientNameParsesBack(a);
    ClientNameParsesBack(b);
  }

  /** Every id up to MaxClientId has at most five hexadecimal digits, so a
      client name is eleven or twelve characters long. */
  lemma {:induction false} HexLength(n: nat, k: nat)
    requires k >= 1 && n < Pow16(k)
    ensures |Hex(n)| <= k
    decreases k
  {
    if n >= 16 {
      HexLength(n / 16, k - 1);
    }
  }

  function Pow16(k: nat): (p: nat)
    ensures p >= 1
  {
    if k == 0 then 1 else 16 * Pow16(k - 1)
  }

  lemma ClientNameLength(id: ClientId)
    ensures 11 <= |ClientName(id)| <= 12
  {
    assert Pow16(5) == 0x10_0000;
    HexLength(id, 5);
  }

  // ---------------------------------------------------------------------
  // Clients and the registry

  /** A client connected to a broker.  Publishing appends to `published`,
      which stands for the messages handed to the broker connection. */
  class Client {
    const id: ClientId
    const broker: string
    const port: int
    const name: string
    var published: seq<Publication>

    constructor (id: ClientId, broker: string, port: int)
      ensures this.id == id && this.broker == broker && this.port == port
      ensures name == ClientName(id)
      ensures published == []
    {
      this.id := id;
      this.broker := broker;
      this.port := port;
      this.name := ClientName(id);
      published := [];
    }

    method Publish(topic: string, payload: string)
      modifies this
      ensures published == old(published) + [Publication(topic, payload)]
    {
      published := published + [Publication(topic, payload)];
    }
  }

  /** The clients of the process, by id.  `history` lists every client ever
      registered, in order. */
  class Registry {
    var clients: map<ClientId, Client>
    ghost var history: seq<Client>

    /** Each client is filed under its own id, every registered client is
        still in the table, and the ids handed out are pairwise distinct. */
    ghost predicate Valid()
      reads this
    {
      && (forall id :: id in clients ==> clients[id].id == id)
      && (forall i :: 0 <= i < |history| ==>
            history[i].id in clients && clients[history[i].id] == history[i])
      && (forall i, j :: 0 <= i < j < |history| ==> history[i].id != history[j].id)
    }

    constructor ()
      ensures Valid() && clients == map[] && history == []
    {
      clients := map[];
      history := [];
    }

    /** Rejection sampling: `draws` are the successive random ids; the first
        one not in the table is returned.  The table is not changed. */
    method GenerateId(draws: seq<ClientId>) returns (id: ClientId)
      requires exists k :: 0 <= k < |draws| && draws[k] !in clients
      ensures id !in clients
      ensures exists k :: 0 <= k < |draws| && draws[k] == id &&
                (forall j :: 0 <= j < k ==> draws[j] in clients)
    {
      var i := 0;
      while draws[i] in clients
        invariant 0 <= i < |draws|
        invariant forall j :: 0 <= j < i ==> draws[j] in clients
        invariant exists k :: i <= k < |draws| && draws[k] !in clients
        decreases |draws| - i
      {
        i := i + 1;
      }
      id := draws[i];
    }

    /** `setdefault(c.id, c)`: files `c` under its id unless the id is held by
        another client, in which case nothing changes and the call fails. */
    method Register(c: Client) returns (ok: bool)
      requires Valid()
      modifies this
      ensures Valid()
      ensures ok <==> c.id !in old(clients) || old(clients)[c.id] == c
      ensures clients == if ok then old(clients)[c.id := c] else old(clients)
      ensures history == if ok && c.id !in old(clients) then old(history) + [c] else old(history)
    {
      if c.id in clients {
        ok := clients[c.id] == c;
        assert ok ==> clients[c.id := c] == clients;
      } else {
        ok := true;
        clients := clients[c.id := c];
        history := history + [c];
      }
    }

    /** The client constructor: argument checks, a fresh id, the client
        itself and its registration.  Bad arguments raise TypeError and leave
        the table alone; otherwise the new client is filed under an id no
        other client held, and nothing else in the table changes. */
    method Connect(broker: Arg, port: Arg, draws: seq<ClientId>) returns (r: Result<Client>)
      requires Valid()
      requires CheckClientArgs(broker, port).Ok? ==> exists k :: 0 <= k < |draws| && draws[k] !in clients
      modifies this
      ensures Valid()
      ensures CheckClientArgs(broker, port).Err? ==>
                r == Err(TypeError) && clients == old(clients) && history == old(history)
      ensures CheckClientArgs(broker, port).Ok? ==>
                && r.Ok? && fresh(r.value)
                && r.value.id !in old(clients)
                && r.value.broker == broker.s
                && r.value.port == CheckClientArgs(broker, port).value
                && r.value.name == ClientName(r.value.id)
                && r.value.published == []
                && clients == old(clients)[r.value.id := r.value]
                && history == old(history) + [r.value]
    {
      var checked := CheckClientArgs(broker, port);
      if checked.Err? {
        return Err(checked.error);
      }
      var id := GenerateId(draws);
      var c := new Client(id, broker.s, checked.value);
      var ok := Register(c);
      assert ok;
      r := Ok(c);
    }
  }

  /** The ids of every client ever registered are pairwise distinct, and so
      are the names they are known by at the broker. */
  lemma RegisteredNamesDistinct(reg: Registry, i: nat, j: nat)
    requires reg.Valid() && i < j < |reg.history|
    ensures reg.history[i].id != reg.history[j].id
    ensures ClientName(reg.history[i].id) != ClientName(reg.history[j].id)
  {
    ClientNamesDistinct(reg.history[i].id, reg.history[j].id);
  }
}
