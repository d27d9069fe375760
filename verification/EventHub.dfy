/**
 Clients of the event hub (events/producer/handler.go, events/producer/events.go). A client's handler keeps an
 index of what it registered, keyed by a string built from the interest; the hub keeps the registrations of all
 clients. The index has to say exactly what the hub holds, or stopping a client leaves registrations behind.
 */
module EventHub {
  import opened EventHandlers
  import opened Options

  const BLOCK := 1
  const CHAINCODE := 2
  const REJECTION := 3

  datatype Interest = Interest(eventType: int, regInfo: Option<ChaincodeReg>)

  /** What a registration amounts to, whatever else the interest carried. */
  datatype Entry = Block | Rejection | Chaincode(id: string, event: string)

  /** The entry an interest asks for; None when the hub refuses it outright. */
  function EntryOf(i: Interest): Option<Entry>
  {
    if i.eventType == BLOCK then Some(Block)
    else if i.eventType == REJECTION then Some(Rejection)
    else if i.eventType == CHAINCODE && i.regInfo.Some? && i.regInfo.value.chaincodeId != "" then
      Some(Chaincode(i.regInfo.value.chaincodeId, i.regInfo.value.eventName))
    else None
  }

  /** getInterestKey; called only for interests the hub accepted, so chaincode interests carry registration info. */
  function InterestKey(i: Interest): string
    requires i.eventType == CHAINCODE ==> i.regInfo.Some?
  {
    if i.eventType == BLOCK then "/1"
    else if i.eventType == REJECTION then "/3"
    else if i.eventType == CHAINCODE then "/2/" + i.regInfo.value.chaincodeId + "/" + i.regInfo.value.eventName
    else ""
  }

  function Key(e: Entry): string
  {
    match e
    case Block => "/1"
    case Rejection => "/3"
    case Chaincode(id, event) => "/2/" + id + "/" + event
  }

  // ---------------------------------------------------------------- when keys tell entries apart

  /** No chaincode id of `ids`, followed by "/", is the beginning of another one. */
  ghost predicate Separated(ids: set<string>)
  {
    forall a, b :: a in ids && b in ids && a != "" && a != b ==> !(a + "/" <= b)
  }

  ghost predicate Over(ids: set<string>, e: Entry)
  {
    e.Chaincode? ==> e.id in ids && e.id != ""
  }

  lemma NoSlashNoPrefix(a: string, b: string)
    requires '/' !in b
    ensures !(a + "/" <= b)
  {
    assert (a + "/")[|a|] == '/';
  }

  /** Ids without "/" are always separated. */
  lemma SlashFreeSeparated(ids: set<string>)
    requires forall a :: a in ids ==> '/' !in a
    ensures Separated(ids)
  {
    forall a: string, b | a in ids && b in ids ensures !(a + "/" <= b) { NoSlashNoPrefix(a, b); }
  }

  /** Equal keys with a shorter first id: that id followed by "/" begins the other. */
  lemma SharedKeyPrefix(a: string, x: string, b: string, y: string)
    requires "/2/" + a + "/" + x == "/2/" + b + "/" + y
    requires |a| < |b|
    ensures a + "/" <= b
  {
    var k, l := "/2/" + a + "/" + x, "/2/" + b + "/" + y;
    forall i | 0 <= i < |a| + 1 ensures (a + "/")[i] == b[i] {
      assert k[i + 3] == (a + "/")[i];
      assert l[i + 3] == b[i];
    }
  }

  lemma SharedKeySameLength(a: string, x: string, b: string, y: string)
    requires "/2/" + a + "/" + x == "/2/" + b + "/" + y
    requires |a| == |b|
    ensures a == b && x == y
  {
    var k, l := "/2/" + a + "/" + x, "/2/" + b + "/" + y;
    assert k[3..3 + |a|] == a && l[3..3 + |a|] == b;
    assert k[4 + |a|..] == x && l[4 + |a|..] == y;
  }

  lemma KeyInjective(ids: set<string>, e: Entry, f: Entry)
    requires Separated(ids) && Over(ids, e) && Over(ids, f) && Key(e) == Key(f)
    ensures e == f
  {
    assert e.Chaincode? <==> Key(e)[1] == '2';
    assert f.Chaincode? <==> Key(f)[1] == '2';
    assert e.Block? <==> Key(e)[1] == '1';
    assert f.Block? <==> Key(f)[1] == '1';
    if e.Chaincode? {
      if |e.id| < |f.id| { SharedKeyPrefix(e.id, e.event, f.id, f.event); }
      else if |f.id| < |e.id| { SharedKeyPrefix(f.id, f.event, e.id, e.event); }
      else { SharedKeySameLength(e.id, e.event, f.id, f.event); }
    }
  }

  /** Two entries that share a key when one id followed by "/" begins another. */
  function Collision(a: string, b: string, event: string): (Entry, Entry)
    requires a + "/" <= b
  {
    (Chaincode(a, b[|a| + 1..] + "/" + event), Chaincode(b, event))
  }

  lemma CollisionSharesKey(a: string, b: string, event: string)
    requires a + "/" <= b
    ensures Key(Collision(a, b, event).0) == Key(Collision(a, b, event).1)
    ensures Collision(a, b, event).0 != Collision(a, b, event).1
  {
    var rest := b[|a| + 1..];
    assert b == a + "/" + rest;
    assert "/2/" + a + "/" + (rest + "/" + event) == "/2/" + b + "/" + event;
  }

  /** The key tells entries over a set of chaincode ids apart exactly when the ids are separated. */
  lemma KeysDistinguishExactly(ids: set<string>)
    ensures Separated(ids) <==> forall e, f :: Over(ids, e) && Over(ids, f) && Key(e) == Key(f) ==> e == f
  {
    if Separated(ids) {
      forall e, f | Over(ids, e) && Over(ids, f) && Key(e) == Key(f) ensures e == f { KeyInjective(ids, e, f); }
    } else {
      var a, b :| a in ids && b in ids && a != "" && a != b && a + "/" <= b;
      CollisionSharesKey(a, b, "");
      var (e, f) := Collision(a, b, "");
      assert Over(ids, e) && Over(ids, f) && Key(e) == Key(f) && e != f;
    }
  }

  // ---------------------------------------------------------------- runs of the hub

  /** All registrations, and the index of each connected client. */
  datatype Hub = Hub(regs: set<(Entry, Client)>, index: map<Client, map<string, Interest>>)

  predicate Holds(h: Hub, e: Entry, c: Client) { (e, c) in h.regs }

  datatype Step =
    | Connect(client: Client)
    | Register(client: Client, interest: Interest)
    | Deregister(client: Client, interest: Interest)
    | Stop(client: Client)

  /** The registrations a client's index names. */
  function Named(c: Client, index: map<string, Interest>): set<(Entry, Client)>
  {
    set k | k in index && EntryOf(index[k]).Some? :: (EntryOf(index[k]).value, c)
  }

  /** One interest of one message of one client, or a connection beginning or ending. */
  function Next(h: Hub, s: Step): Hub
  {
    var c := s.client;
    if s.Connect? then (if c in h.index then h else h.(index := h.index[c := map[]]))
    else if c !in h.index then h
    else match s
      case Register(_, i) =>
        var e := EntryOf(i);
        if e.None? || Holds(h, e.value, c) then h
        else Hub(h.regs + {(e.value, c)}, h.index[c := h.index[c][InterestKey(i) := i]])
      case Deregister(_, i) =>
        var e := EntryOf(i);
        if e.None? || !Holds(h, e.value, c) then h
        else Hub(h.regs - {(e.value, c)}, h.index[c := h.index[c] - {InterestKey(i)}])
      case Stop(_) => Hub(h.regs - Named(c, h.index[c]), h.index - {c})
      case Connect(_) => h
  }

  function Run(steps: seq<Step>): Hub
  {
    if |steps| == 0 then Hub({}, map[]) else Next(Run(steps[..|steps| - 1]), steps[|steps| - 1])
  }

  /** Registering adds exactly what is asked for, unless it is refused or there; it never touches other clients. */
  lemma RegisterOutcome(h: Hub, c: Client, i: Interest)
    requires c in h.index
    ensures var n := Next(h, Register(c, i));
            && (forall e, d :: Holds(n, e, d) <==> Holds(h, e, d) || (d == c && EntryOf(i) == Some(e)))
            && n.index.Keys == h.index.Keys && (forall d :: d in h.index && d != c ==> n.index[d] == h.index[d])
            && (EntryOf(i).Some? && !Holds(h, EntryOf(i).value, c) ==> n.index[c] == h.index[c][Key(EntryOf(i).value) := i])
            && (EntryOf(i).None? || Holds(h, EntryOf(i).value, c) ==> n == h)
  {
    if EntryOf(i).Some? { KeyOfInterest(i); }
  }

  /** Deregistering removes exactly what is asked for, if it is there. */
  lemma DeregisterOutcome(h: Hub, c: Client, i: Interest)
    requires c in h.index
    ensures var n := Next(h, Deregister(c, i));
            && (forall e, d :: Holds(n, e, d) <==> Holds(h, e, d) && !(d == c && EntryOf(i) == Some(e)))
            && n.index.Keys == h.index.Keys && (forall d :: d in h.index && d != c ==> n.index[d] == h.index[d])
            && (EntryOf(i).Some? && Holds(h, EntryOf(i).value, c) ==> n.index[c] == h.index[c] - {Key(EntryOf(i).value)})
            && (EntryOf(i).None? || !Holds(h, EntryOf(i).value, c) ==> n == h)
  {
    if EntryOf(i).Some? { KeyOfInterest(i); }
  }

  /** Deregistering undoes registering, hub and index alike, when the key was free. */
  lemma RegisterRoundTrip(h: Hub, c: Client, i: Interest)
    requires c in h.index && EntryOf(i).Some? && !Holds(h, EntryOf(i).value, c) && Key(EntryOf(i).value) !in h.index[c]
    ensures Next(Next(h, Register(c, i)), Deregister(c, i)) == h
  {
    KeyOfInterest(i);
    var n, k, e := Next(h, Register(c, i)), Key(EntryOf(i).value), EntryOf(i).value;
    assert Holds(n, e, c);
    assert h.regs + {(e, c)} - {(e, c)} == h.regs;
    assert h.index[c][k := i] - {k} == h.index[c];
    assert n.index[c := h.index[c]] == h.index;
  }

  /** Which interests the hub takes, and as what. */
  lemma EntriesByType(i: Interest)
    ensures EntryOf(i) == Some(Block) <==> i.eventType == BLOCK
    ensures EntryOf(i) == Some(Rejection) <==> i.eventType == REJECTION
    ensures forall id, ev :: EntryOf(i) == Some(Chaincode(id, ev)) <==>
      i.eventType == CHAINCODE && i.regInfo == Some(ChaincodeReg(id, ev)) && id != ""
  {}

  /** A client that connects starts with an empty index; one that is connected keeps its own. */
  lemma ConnectOutcome(h: Hub, c: Client)
    ensures var n := Next(h, Connect(c));
            && n.regs == h.regs && n.index == h.index[c := if c in h.index then h.index[c] else map[]]
  {
    assert c in h.index ==> h.index[c := h.index[c]] == h.index;
  }

  /** Every chaincode id a step mentions is one of `ids`. */
  ghost predicate StepOver(ids: set<string>, s: Step)
  {
    (s.Register? || s.Deregister?) && EntryOf(s.interest).Some? ==> Over(ids, EntryOf(s.interest).value)
  }

  ghost predicate StepsOver(ids: set<string>, steps: seq<Step>)
  {
    forall i :: 0 <= i < |steps| ==> StepOver(ids, steps[i])
  }

  /** A client's index holds an interest under the key of each of its registrations, and nothing else. */
  ghost predicate IndexExact(h: Hub, c: Client)
  {
    && (c !in h.index ==> forall e :: !Holds(h, e, c))
    && (c in h.index ==>
          && (forall e :: Holds(h, e, c) ==> Key(e) in h.index[c] && EntryOf(h.index[c][Key(e)]) == Some(e))
          && (forall k :: k in h.index[c] ==>
                EntryOf(h.index[c][k]).Some? && k == Key(EntryOf(h.index[c][k]).value)
                && Holds(h, EntryOf(h.index[c][k]).value, c)))
  }

  ghost predicate Inv(ids: set<string>, h: Hub)
  {
    && (forall e, c :: Holds(h, e, c) ==> Over(ids, e))
    && (forall c :: IndexExact(h, c))
  }

  lemma KeyOfInterest(i: Interest)
    requires EntryOf(i).Some?
    ensures InterestKey(i) == Key(EntryOf(i).value)
  {}

  lemma RegisterKeeps(ids: set<string>, h: Hub, c: Client, i: Interest)
    requires Separated(ids) && Inv(ids, h) && StepOver(ids, Register(c, i)) && c in h.index
    requires EntryOf(i).Some? && !Holds(h, EntryOf(i).value, c)
    ensures IndexExact(Next(h, Register(c, i)), c)
  {
    var e, n := EntryOf(i).value, Next(h, Register(c, i));
    KeyOfInterest(i);
    assert IndexExact(h, c);
    assert n.index[c] == h.index[c][Key(e) := i];
    forall f | Holds(n, f, c) ensures Key(f) in n.index[c] && EntryOf(n.index[c][Key(f)]) == Some(f) {
      if f != e {
        assert Holds(h, f, c);
        if Key(f) == Key(e) { KeyInjective(ids, e, f); }
      }
    }
    forall k | k in n.index[c] ensures
      && EntryOf(n.index[c][k]).Some? && k == Key(EntryOf(n.index[c][k]).value)
      && Holds(n, EntryOf(n.index[c][k]).value, c)
    {
      if k != Key(e) { assert k in h.index[c] && Holds(h, EntryOf(h.index[c][k]).value, c); }
    }
  }

  lemma DeregisterKeeps(ids: set<string>, h: Hub, c: Client, i: Interest)
    requires Separated(ids) && Inv(ids, h) && c in h.index
    requires EntryOf(i).Some? && Holds(h, EntryOf(i).value, c)
    ensures IndexExact(Next(h, Deregister(c, i)), c)
  {
    var e, n := EntryOf(i).value, Next(h, Deregister(c, i));
    KeyOfInterest(i);
    assert IndexExact(h, c);
    assert n.index[c] == h.index[c] - {Key(e)};
    forall f | Holds(n, f, c) ensures Key(f) in n.index[c] && EntryOf(n.index[c][Key(f)]) == Some(f) {
      assert Holds(h, f, c);
      if Key(f) == Key(e) { KeyInjective(ids, e, f); }
    }
    forall k | k in n.index[c] ensures
      && EntryOf(n.index[c][k]).Some? && k == Key(EntryOf(n.index[c][k]).value)
      && Holds(n, EntryOf(n.index[c][k]).value, c)
    {
      assert k in h.index[c] && Holds(h, EntryOf(h.index[c][k]).value, c);
    }
  }

  lemma StopClears(h: Hub, c: Client)
    requires IndexExact(h, c)
    ensures forall e :: !Holds(Next(h, Stop(c)), e, c)
  {
    var n := Next(h, Stop(c));
    forall e ensures !Holds(n, e, c) {
      if c in h.index && Holds(h, e, c) {
        assert Key(e) in h.index[c] && EntryOf(h.index[c][Key(e)]) == Some(e);
        assert (e, c) in Named(c, h.index[c]);
      }
    }
  }

  lemma OthersKeep(h: Hub, s: Step, d: Client)
    requires IndexExact(h, d) && d != s.client
    ensures IndexExact(Next(h, s), d)
  {
    var n := Next(h, s);
    assert d in n.index <==> d in h.index;
    assert d in h.index ==> n.index[d] == h.index[d];
    assert forall e :: Holds(n, e, d) <==> Holds(h, e, d);
  }

  lemma NextKeepsInv(ids: set<string>, h: Hub, s: Step)
    requires Separated(ids) && Inv(ids, h) && StepOver(ids, s)
    ensures Inv(ids, Next(h, s))
  {
    var c, n := s.client, Next(h, s);
    forall d ensures IndexExact(n, d) {
      assert IndexExact(h, d);
      if d != c { OthersKeep(h, s, d); }
      else if n != h {
        match s
        case Connect(_) => assert forall e :: Holds(n, e, c) <==> Holds(h, e, c);
        case Register(_, i) => RegisterKeeps(ids, h, c, i);
        case Deregister(_, i) => DeregisterKeeps(ids, h, c, i);
        case Stop(_) => StopClears(h, c);
      }
    }
    forall e, d | Holds(n, e, d) ensures Over(ids, e) {
      if !Holds(h, e, d) { assert s.Register? && e == EntryOf(s.interest).value; }
    }
  }

  lemma {:induction false} RunKeepsInv(ids: set<string>, steps: seq<Step>)
    requires Separated(ids) && StepsOver(ids, steps)
    ensures Inv(ids, Run(steps))
  {
    if |steps| > 0 {
      RunKeepsInv(ids, steps[..|steps| - 1]);
      NextKeepsInv(ids, Run(steps[..|steps| - 1]), steps[|steps| - 1]);
    }
  }

  /** Over separated ids, every client's index matches its registrations exactly after any run of any clients. */
  lemma IndexAlwaysExact(ids: set<string>, steps: seq<Step>, c: Client)
    requires Separated(ids) && StepsOver(ids, steps)
    ensures IndexExact(Run(steps), c)
  {
    RunKeepsInv(ids, steps);
  }

  /** Stopping a client after `steps` leaves no registration that mentions it. */
  ghost predicate StopsClean(steps: seq<Step>, c: Client)
  {
    forall e :: !Holds(Run(steps + [Stop(c)]), e, c)
  }

  lemma SeparatedStopsClean(ids: set<string>, steps: seq<Step>, c: Client)
    requires Separated(ids) && StepsOver(ids, steps)
    ensures StopsClean(steps, c)
  {
    RunKeepsInv(ids, steps);
    var all := steps + [Stop(c)];
    assert all[..|all| - 1] == steps;
    assert IndexExact(Run(steps), c);
    StopClears(Run(steps), c);
  }

  function InterestIn(e: Entry): Interest
    requires e.Chaincode?
  {
    Interest(CHAINCODE, Some(ChaincodeReg(e.id, e.event)))
  }

  lemma {:induction false} RunThree(a: Step, b: Step, c: Step)
    ensures Run([a, b, c]) == Next(Next(Next(Hub({}, map[]), a), b), c)
  {
    assert [a, b, c][..2] == [a, b] && [a, b][..1] == [a] && [a][..0] == [];
    assert Run([a]) == Next(Run([]), a);
    assert Run([a, b]) == Next(Run([a]), b);
  }

  /** A run over two colliding ids after which stopping the client leaves its first registration in the hub. */
  lemma CollisionLeavesRegistration(a: string, b: string, c: Client)
    requires a != "" && a + "/" <= b
    ensures var (e, f) := Collision(a, b, "");
            !StopsClean([Connect(c), Register(c, InterestIn(e)), Register(c, InterestIn(f))], c)
  {
    CollisionSharesKey(a, b, "");
    var (e, f) := Collision(a, b, "");
    KeyOfInterest(InterestIn(e));
    KeyOfInterest(InterestIn(f));
    var steps := [Connect(c), Register(c, InterestIn(e)), Register(c, InterestIn(f))];
    RunThree(steps[0], steps[1], steps[2]);
    var h1 := Next(Hub({}, map[]), steps[0]);
    assert h1.regs == {} && h1.index[c] == map[];
    var h2 := Next(h1, steps[1]);
    assert h2.regs == {(e, c)} && h2.index[c] == map[Key(e) := InterestIn(e)];
    var h3 := Next(h2, steps[2]);
    assert h3.regs == {(e, c), (f, c)} && h3.index[c] == map[Key(e) := InterestIn(f)];
    assert (e, c) !in Named(c, h3.index[c]);
    assert (steps + [Stop(c)])[..3] == steps;
    assert Holds(Run(steps + [Stop(c)]), e, c);
  }

  /** Stopping a client always clears its registrations if and only if the chaincode ids in use are separated. */
  lemma StopsCleanExactly(ids: set<string>, c: Client)
    ensures Separated(ids) <==> forall steps :: StepsOver(ids, steps) ==> StopsClean(steps, c)
  {
    if Separated(ids) {
      forall steps | StepsOver(ids, steps) ensures StopsClean(steps, c) { SeparatedStopsClean(ids, steps, c); }
    } else {
      var a, b :| a in ids && b in ids && a != "" && a != b && a + "/" <= b;
      CollisionLeavesRegistration(a, b, c);
      var (e, f) := Collision(a, b, "");
      assert StepsOver(ids, [Connect(c), Register(c, InterestIn(e)), Register(c, InterestIn(f))]);
    }
  }
}
