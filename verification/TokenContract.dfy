/** The token chaincode: chaincode/src/token/token.go. */
module TokenContract {
  import opened Wrappers
  import opened Strconv
  import opened MapSum

  /** peer0 of Org1 to Org10. */
  const PEER_NAMES: seq<string> := [
    "peer0.org1.example.com", "peer0.org2.example.com", "peer0.org3.example.com", "peer0.org4.example.com",
    "peer0.org5.example.com", "peer0.org6.example.com", "peer0.org7.example.com", "peer0.org8.example.com",
    "peer0.org9.example.com", "peer0.org10.example.com"]

  const PEERS: set<string> := set name | name in PEER_NAMES

  /** A token as its JSON document in the ledger; a peer that maps to false is byzantine. */
  datatype TokenDoc = TokenDoc(
    owner: string, totalSupply: int, tokenName: string,
    balanceOf: map<string, int>, peers: map<string, bool>, flag: bool)

  type Ledger = map<string, TokenDoc>

  datatype Payload = Document(doc: TokenDoc) | Peers(peers: map<string, bool>) | Text(text: string)
  datatype Error = BadArity | BadAmount | GetFailed | Undecodable | UnknownPeer | PutFailed | BadFunction

  /**
   One invocation: its function and arguments, what json.Unmarshal makes of the setPeer document
   in args[1], and whether the ledger serves its read and its write.
   */
  datatype Call = Call(
    fn: string, args: seq<string>, updates: Option<map<string, string>>, getOk: bool, putOk: bool)

  function Wrap64(n: int): int {
    (n - MIN_INT64) % 0x1_0000_0000_0000_0000 + MIN_INT64
  }

  function Balance(m: map<string, int>, account: string): int {
    if account in m then m[account] else 0
  }

  function Moved(m: map<string, int>, from: string, to: string, value: int): map<string, int> {
    if Balance(m, from) >= value then
      var m1 := m[from := Wrap64(Balance(m, from) - value)];
      m1[to := Wrap64(Balance(m1, to) + value)]
    else m
  }

  class Token {
    var owner: string
    var totalSupply: int
    var tokenName: string
    var balanceOf: map<string, int>
    var peers: map<string, bool>
    var flag: bool

    function Doc(): TokenDoc
      reads this
    {
      TokenDoc(owner, totalSupply, tokenName, balanceOf, peers, flag)
    }

    constructor Unmarshal(doc: TokenDoc)
      ensures Doc() == doc
    {
      owner, totalSupply, tokenName := doc.owner, doc.totalSupply, doc.tokenName;
      balanceOf, peers, flag := doc.balanceOf, doc.peers, doc.flag;
    }

    method Transfer(from: string, to: string, value: int)
      modifies this`balanceOf
      ensures balanceOf == Moved(old(balanceOf), from, to, value)
    {
      if Balance(balanceOf, from) >= value {
        balanceOf := balanceOf[from := Wrap64(Balance(balanceOf, from) - value)];
        balanceOf := balanceOf[to := Wrap64(Balance(balanceOf, to) + value)];
      }
    }
  }

  class Stub {
    var state: Ledger
    const getOk: bool
    const putOk: bool

    constructor (state: Ledger, getOk: bool, putOk: bool)
      ensures this.state == state && this.getOk == getOk && this.putOk == putOk
    {
      this.state, this.getOk, this.putOk := state, getOk, putOk;
    }

    /** GetState and json.Unmarshal; an absent key reads as no bytes, which do not decode. */
    method Load(key: string) returns (r: Result<Token, Error>)
      ensures match Read(state, key, getOk)
              case Err(e) => r == Err(e)
              case Ok(doc) => r.Ok? && fresh(r.value) && r.value.Doc() == doc
    {
      if !getOk {
        return Err(GetFailed);
      }
      if key !in state {
        return Err(Undecodable);
      }
      var token := new Token.Unmarshal(state[key]);
      return Ok(token);
    }

    /** The ledger refuses the empty key. */
    method PutState(key: string, doc: TokenDoc) returns (ok: bool)
      modifies this`state
      ensures ok == (putOk && key != "")
      ensures state == if ok then old(state)[key := doc] else old(state)
    {
      ok := putOk && key != "";
      if ok {
        state := state[key := doc];
      }
    }
  }

  // ----- what each invocation does to the ledger -----

  function Read(l: Ledger, key: string, getOk: bool): Result<TokenDoc, Error> {
    if !getOk then Err(GetFailed) else if key !in l then Err(Undecodable) else Ok(l[key])
  }

  function Written(l: Ledger, key: string, doc: TokenDoc, putOk: bool): (Ledger, Result<Payload, Error>) {
    if putOk && key != "" then (l[key := doc], Ok(Document(doc))) else (l, Err(PutFailed))
  }

  function InitialPeers(n: int): map<string, bool> {
    map["peer0.org1.example.com" := !(n > 9),
        "peer0.org2.example.com" := !(n > 8),
        "peer0.org3.example.com" := !(n > 7),
        "peer0.org4.example.com" := !(n > 6),
        "peer0.org5.example.com" := !(n > 5),
        "peer0.org6.example.com" := !(n > 4),
        "peer0.org7.example.com" := !(n > 3),
        "peer0.org8.example.com" := !(n > 2),
        "peer0.org9.example.com" := !(n > 1),
        "peer0.org10.example.com" := !(n > 0)]
  }

  function Issued(owner: string, name: string, supply: int, byzantineNum: int): TokenDoc {
    TokenDoc(owner, supply, name, map[owner := supply], InitialPeers(byzantineNum), false)
  }

  function IssueCall(l: Ledger, c: Call): (Ledger, Result<Payload, Error>) {
    if |c.args| != 4 then (l, Err(BadArity))
    else
      var doc := Issued(c.args[0], c.args[1], Atoi(c.args[2]).value, Atoi(c.args[3]).value);
      Written(l, c.args[1], doc, c.putOk)
  }

  function TransferCall(l: Ledger, c: Call): (Ledger, Result<Payload, Error>) {
    if |c.args| != 5 then (l, Err(BadArity))
    else
      var amount := Atoi(c.args[3]).value;
      if amount <= 0 then (l, Err(BadAmount))
      else
        match Read(l, c.args[0], c.getOk)
        case Err(e) => (l, Err(e))
        case Ok(doc) =>
          var balances := Moved(doc.balanceOf, c.args[1], c.args[2], amount);
          Written(l, c.args[0], doc.(flag := ParseBool(c.args[4]), balanceOf := balances), c.putOk)
  }

  /** The peers after all updates, or None when one of them names no known peer. */
  function Updated(peers: map<string, bool>, updates: map<string, string>): Option<map<string, bool>> {
    if updates.Keys <= peers.Keys
    then Some(map p | p in peers :: if p in updates then ParseBool(updates[p]) else peers[p])
    else None
  }

  function SetPeerCall(l: Ledger, c: Call): (Ledger, Result<Payload, Error>) {
    if |c.args| != 3 then (l, Err(BadArity))
    else
      match Read(l, c.args[0], c.getOk)
      case Err(e) => (l, Err(e))
      case Ok(doc) =>
        if c.updates.None? then (l, Err(Undecodable))
        else
          match Updated(doc.peers, c.updates.value)
          case None => (l, Err(UnknownPeer))
          case Some(peers) => Written(l, c.args[0], doc.(peers := peers, flag := ParseBool(c.args[2])), c.putOk)
  }

  function GetPeersCall(l: Ledger, c: Call): Result<Payload, Error> {
    if |c.args| != 1 then Err(BadArity)
    else
      var doc :- Read(l, c.args[0], c.getOk);
      Ok(Peers(doc.peers))
  }

  function BalanceCall(l: Ledger, c: Call): Result<Payload, Error> {
    if |c.args| != 2 then Err(BadArity)
    else
      var doc :- Read(l, c.args[0], c.getOk);
      Ok(Text(Itoa(Balance(doc.balanceOf, c.args[1]))))
  }

  function Apply(l: Ledger, c: Call): (Ledger, Result<Payload, Error>) {
    if c.fn == "issue" then IssueCall(l, c)
    else if c.fn == "transfer" then TransferCall(l, c)
    else if c.fn == "balance" then (l, BalanceCall(l, c))
    else if c.fn == "setPeer" then SetPeerCall(l, c)
    else if c.fn == "getPeers" then (l, GetPeersCall(l, c))
    else (l, Err(BadFunction))
  }

  function Run(l: Ledger, calls: seq<Call>): Ledger
    decreases |calls|
  {
    if calls == [] then l else Run(Apply(l, calls[0]).0, calls[1..])
  }

  // ----- the handlers -----

  method Issue(stub: Stub, c: Call) returns (r: Result<Payload, Error>)
    requires stub.putOk == c.putOk
    modifies stub`state
    ensures (stub.state, r) == IssueCall(old(stub.state), c)
  {
    if |c.args| != 4 {
      return Err(BadArity);
    }
    var owner, name := c.args[0], c.args[1];
    var supply, byzantineNum := Atoi(c.args[2]).value, Atoi(c.args[3]).value;
    var token := new Token.Unmarshal(TokenDoc(owner, supply, name, map[], InitialPeers(byzantineNum), false));
    token.balanceOf := token.balanceOf[token.owner := token.totalSupply];
    var ok := stub.PutState(name, token.Doc());
    if !ok {
      return Err(PutFailed);
    }
    return Ok(Document(token.Doc()));
  }

  method TransferTokens(stub: Stub, c: Call) returns (r: Result<Payload, Error>)
    requires stub.getOk == c.getOk && stub.putOk == c.putOk
    modifies stub`state
    ensures (stub.state, r) == TransferCall(old(stub.state), c)
  {
    if |c.args| != 5 {
      return Err(BadArity);
    }
    var amount := Atoi(c.args[3]).value;
    if amount <= 0 {
      return Err(BadAmount);
    }
    var token :- stub.Load(c.args[0]);
    token.flag := ParseBool(c.args[4]);
    token.Transfer(c.args[1], c.args[2], amount);
    var ok := stub.PutState(c.args[0], token.Doc());
    if !ok {
      return Err(PutFailed);
    }
    return Ok(Document(token.Doc()));
  }

  /** The update map is walked in an order nobody chooses; the outcome does not depend on it. */
  method OverwritePeers(token: Token, updates: map<string, string>) returns (ok: bool)
    modifies token`peers
    ensures ok <==> Updated(old(token.peers), updates).Some?
    ensures ok ==> Updated(old(token.peers), updates) == Some(token.peers)
  {
    ghost var before := token.peers;
    var todo := updates.Keys;
    while todo != {}
      invariant todo <= updates.Keys && updates.Keys - todo <= before.Keys
      invariant token.peers ==
                  map p | p in before :: if p in updates && p !in todo then ParseBool(updates[p]) else before[p]
      decreases todo
    {
      var k :| k in todo;
      if k in token.peers {
        token.peers := token.peers[k := ParseBool(updates[k])];
      } else {
        return false;
      }
      todo := todo - {k};
    }
    assert updates.Keys <= before.Keys;
    assert token.peers == Updated(before, updates).value;
    return true;
  }

  method SetPeer(stub: Stub, c: Call) returns (r: Result<Payload, Error>)
    requires stub.getOk == c.getOk && stub.putOk == c.putOk
    modifies stub`state
    ensures (stub.state, r) == SetPeerCall(old(stub.state), c)
  {
    if |c.args| != 3 {
      return Err(BadArity);
    }
    var token :- stub.Load(c.args[0]);
    if c.updates.None? {
      return Err(Undecodable);
    }
    var known := OverwritePeers(token, c.updates.value);
    if !known {
      return Err(UnknownPeer);
    }
    token.flag := ParseBool(c.args[2]);
    var ok := stub.PutState(c.args[0], token.Doc());
    if !ok {
      return Err(PutFailed);
    }
    return Ok(Document(token.Doc()));
  }

  method Invoke(stub: Stub, c: Call) returns (r: Result<Payload, Error>)
    requires stub.getOk == c.getOk && stub.putOk == c.putOk
    modifies stub`state
    ensures (stub.state, r) == Apply(old(stub.state), c)
  {
    if c.fn == "issue" {
      r := Issue(stub, c);
    } else if c.fn == "transfer" {
      r := TransferTokens(stub, c);
    } else if c.fn == "balance" {
      if |c.args| != 2 {
        return Err(BadArity);
      }
      var token :- stub.Load(c.args[0]);
      r := Ok(Text(Itoa(Balance(token.balanceOf, c.args[1]))));
    } else if c.fn == "setPeer" {
      r := SetPeer(stub, c);
    } else if c.fn == "getPeers" {
      if |c.args| != 1 {
        return Err(BadArity);
      }
      var token :- stub.Load(c.args[0]);
      r := Ok(Peers(token.peers));
    } else {
      r := Err(BadFunction);
    }
  }

  // ----- conservation -----

  /** Balances add up to the supply, and are within it; a negative supply never leaves its owner. */
  ghost predicate Conserved(doc: TokenDoc) {
    && MIN_INT64 <= doc.totalSupply <= MAX_INT64
    && Sum(doc.balanceOf) == doc.totalSupply
    && if doc.totalSupply >= 0
       then forall a <- doc.balanceOf :: 0 <= doc.balanceOf[a] <= doc.totalSupply
       else doc.balanceOf == map[doc.owner := doc.totalSupply]
  }

  ghost predicate Sound(name: string, doc: TokenDoc) {
    Conserved(doc) && doc.tokenName == name != "" && doc.peers.Keys == PEERS
  }

  ghost predicate LedgerSound(l: Ledger) {
    forall name <- l :: Sound(name, l[name])
  }

  /** `Moved` over the unbounded integers, for a sender who can pay. */
  function Shifted(m: map<string, int>, from: string, to: string, value: int): map<string, int>
    requires from in m
  {
    var m1 := m[from := m[from] - value];
    m1[to := Balance(m1, to) + value]
  }

  lemma ShiftConserves(m: map<string, int>, from: string, to: string, value: int)
    requires from in m && m[from] >= value > 0
    requires forall a <- m :: m[a] >= 0
    ensures var m2 := Shifted(m, from, to, value);
            Sum(m2) == Sum(m) && forall a <- m2 :: 0 <= m2[a] <= Sum(m)
  {
    var m1 := m[from := m[from] - value];
    SumUpdate(m, from, m[from] - value);
    SumUpdate(m1, to, Balance(m1, to) + value);
    var m2 := Shifted(m, from, to, value);
    forall a | a in m2
      ensures 0 <= m2[a] <= Sum(m)
    {
      SumBoundsValues(m2, a);
    }
  }

  lemma InRangeDoesNotWrap(n: int)
    requires MIN_INT64 <= n <= MAX_INT64
    ensures Wrap64(n) == n
  {
  }

  lemma NothingWraps(m: map<string, int>, from: string, to: string, value: int)
    requires from in m && m[from] >= value > 0 && Sum(m) <= MAX_INT64
    requires forall a <- m :: m[a] >= 0
    ensures Moved(m, from, to, value) == Shifted(m, from, to, value)
  {
    SumBoundsValues(m, from);
    ShiftConserves(m, from, to, value);
    InRangeDoesNotWrap(m[from] - value);
    var m1 := m[from := m[from] - value];
    assert Shifted(m, from, to, value)[to] == Balance(m1, to) + value;
    InRangeDoesNotWrap(Balance(m1, to) + value);
  }

  /** A transfer of a positive amount: who gains, who loses, and that no addition wraps around. */
  lemma TransferMoves(doc: TokenDoc, from: string, to: string, value: int)
    requires Conserved(doc) && value > 0
    ensures var m' := Moved(doc.balanceOf, from, to, value);
            && Conserved(doc.(balanceOf := m'))
            && forall a :: Balance(m', a) ==
                 if Balance(doc.balanceOf, from) < value || from == to then Balance(doc.balanceOf, a)
                 else Balance(doc.balanceOf, a) - (if a == from then value else 0) + (if a == to then value else 0)
  {
    if Balance(doc.balanceOf, from) >= value {
      NothingWraps(doc.balanceOf, from, to, value);
      ShiftConserves(doc.balanceOf, from, to, value);
    }
  }

  lemma IssueIsSound(owner: string, name: string, supply: int, n: int)
    requires MIN_INT64 <= supply <= MAX_INT64 && name != ""
    ensures Sound(name, Issued(owner, name, supply, n))
  {
    InitialPeersKeys(n);
    SumUpdate(map[], owner, supply);
    assert map[][owner := supply] == map[owner := supply];
  }

  lemma TransferIsSound(l: Ledger, c: Call)
    requires LedgerSound(l)
    ensures LedgerSound(TransferCall(l, c).0)
  {
    if |c.args| == 5 && c.args[0] in l && Atoi(c.args[3]).value > 0 {
      TransferMoves(l[c.args[0]], c.args[1], c.args[2], Atoi(c.args[3]).value);
    }
  }

  lemma SetPeerIsSound(l: Ledger, c: Call)
    requires LedgerSound(l)
    ensures LedgerSound(SetPeerCall(l, c).0)
  {
  }

  lemma ApplyIsSound(l: Ledger, c: Call)
    requires LedgerSound(l)
    ensures LedgerSound(Apply(l, c).0)
  {
    if c.fn == "issue" && |c.args| == 4 && c.args[1] != "" {
      IssueIsSound(c.args[0], c.args[1], Atoi(c.args[2]).value, Atoi(c.args[3]).value);
    }
    TransferIsSound(l, c);
    SetPeerIsSound(l, c);
  }

  lemma {:induction false} RunIsSound(l: Ledger, calls: seq<Call>)
    requires LedgerSound(l)
    ensures LedgerSound(Run(l, calls))
    decreases |calls|
  {
    if calls != [] {
      ApplyIsSound(l, calls[0]);
      RunIsSound(Apply(l, calls[0]).0, calls[1..]);
    }
  }

  /** Every token in every reachable ledger conserves its supply and has exactly the ten peers. */
  lemma ReachableTokensAreSound(calls: seq<Call>)
    ensures forall name <- Run(map[], calls) :: Sound(name, Run(map[], calls)[name])
  {
    RunIsSound(map[], calls);
  }

  // ----- what each function does, argument by argument -----

  /** A failed call: which error, and a ledger as it was. */
  predicate Fails(l: Ledger, c: Call, e: Error) {
    Apply(l, c) == (l, Err(e))
  }

  /** A successful call replaces the document of one token, and replies it. */
  ghost predicate Stores(l: Ledger, c: Call, t: string, doc: TokenDoc) {
    var (l', r) := Apply(l, c);
    && r == Ok(Document(doc))
    && l'.Keys == l.Keys + {t} && l'[t] == doc
    && forall s <- l :: s != t ==> l'[s] == l[s]
  }

  /** The first argument is the owner, and gets the whole supply; the second is the name. */
  lemma IssueOutcome(l: Ledger, c: Call) returns (doc: TokenDoc)
    requires c.fn == "issue"
    ensures if |c.args| != 4 then Fails(l, c, BadArity)
            else if !c.putOk || c.args[1] == "" then Fails(l, c, PutFailed)
            else
              && Stores(l, c, c.args[1], doc)
              && doc.owner == c.args[0] && doc.tokenName == c.args[1]
              && doc.totalSupply == Atoi(c.args[2]).value && !doc.flag
              && (forall a :: Balance(doc.balanceOf, a) == if a == c.args[0] then doc.totalSupply else 0)
              && doc.balanceOf.Keys == {c.args[0]} && doc.peers.Keys == PEERS
  {
    doc := *;
    if |c.args| == 4 {
      doc := Issued(c.args[0], c.args[1], Atoi(c.args[2]).value, Atoi(c.args[3]).value);
      InitialPeersKeys(Atoi(c.args[3]).value);
    }
  }

  /**
   A transfer takes the amount from the second argument and gives it to the third, if the second can
   pay it, and sets the flag in any case.
   */
  lemma TransferOutcome(l: Ledger, c: Call) returns (doc: TokenDoc)
    requires LedgerSound(l) && c.fn == "transfer"
    ensures if |c.args| != 5 then Fails(l, c, BadArity)
            else
              var t, from, to, amount := c.args[0], c.args[1], c.args[2], Atoi(c.args[3]).value;
              if amount <= 0 then Fails(l, c, BadAmount)
              else if !c.getOk then Fails(l, c, GetFailed)
              else if t !in l then Fails(l, c, Undecodable)
              else if !c.putOk then Fails(l, c, PutFailed)
              else
                var pays := Balance(l[t].balanceOf, from) >= amount;
                && Stores(l, c, t, doc)
                && doc == l[t].(balanceOf := doc.balanceOf, flag := ParseBool(c.args[4]))
                && forall a :: Balance(doc.balanceOf, a) ==
                     Balance(l[t].balanceOf, a) - (if pays && a == from then amount else 0)
                                                + (if pays && a == to then amount else 0)
  {
    doc := *;
    if |c.args| == 5 && c.args[0] in l && Atoi(c.args[3]).value > 0 {
      var was := l[c.args[0]];
      var balances := Moved(was.balanceOf, c.args[1], c.args[2], Atoi(c.args[3]).value);
      TransferMoves(was, c.args[1], c.args[2], Atoi(c.args[3]).value);
      doc := was.(balanceOf := balances, flag := ParseBool(c.args[4]));
    }
  }

  /** Queries and unknown functions: the reply, and a ledger as it was; a balance reads back as the number. */
  lemma QueryOutcome(l: Ledger, c: Call)
    requires LedgerSound(l) && c.fn != "issue" && c.fn != "transfer" && c.fn != "setPeer"
    ensures if c.fn != "balance" && c.fn != "getPeers" then Fails(l, c, BadFunction)
            else if |c.args| != (if c.fn == "balance" then 2 else 1) then Fails(l, c, BadArity)
            else if !c.getOk then Fails(l, c, GetFailed)
            else if c.args[0] !in l then Fails(l, c, Undecodable)
            else
              var (l', r) := Apply(l, c);
              && l' == l && r.Ok?
              && (c.fn == "getPeers" ==> r.value == Peers(l[c.args[0]].peers))
              && (c.fn == "balance" ==>
                    r.value.Text? &&
                    Atoi(r.value.text) == Number(Balance(l[c.args[0]].balanceOf, c.args[1]), true))
  {
    if c.fn == "balance" && |c.args| == 2 && c.args[0] in l {
      BalanceInRange(c.args[0], l[c.args[0]], c.args[1]);
      AtoiInvertsItoa(Balance(l[c.args[0]].balanceOf, c.args[1]));
    }
  }

  /** After any history the reply to a balance query reads back, without error, as the balance. */
  lemma BalanceReplyReadsBack(calls: seq<Call>, t: string, account: string)
    requires t in Run(map[], calls)
    ensures var reply := Apply(Run(map[], calls), Call("balance", [t, account], None, true, true)).1;
            && reply.Ok? && reply.value.Text?
            && Atoi(reply.value.text) == Number(Balance(Run(map[], calls)[t].balanceOf, account), true)
  {
    ReachableTokensAreSound(calls);
    QueryOutcome(Run(map[], calls), Call("balance", [t, account], None, true, true));
  }

  lemma BalanceInRange(name: string, doc: TokenDoc, account: string)
    requires Sound(name, doc)
    ensures MIN_INT64 <= Balance(doc.balanceOf, account) <= MAX_INT64
  {
    if account in doc.balanceOf && doc.totalSupply >= 0 {
      SumBoundsValues(doc.balanceOf, account);
    }
  }

  /** An invocation that reports an error leaves the ledger alone; a success stores one token at most. */
  lemma ErrorsChangeNothing(l: Ledger, c: Call) returns (k: string)
    ensures var (l', r) := Apply(l, c);
            && (r.Err? ==> l' == l)
            && (r.Ok? && r.value.Document? ==> k != "" && l' == l[k := r.value.doc])
            && (r.Ok? && !r.value.Document? ==> l' == l)
  {
    k := if |c.args| < 2 then "" else if c.fn == "issue" then c.args[1] else c.args[0];
  }

  // ----- what the balances of a token depend on -----

  /** Supply and balances of a token. */
  function Holdings(l: Ledger, t: string): Option<(int, map<string, int>)> {
    if t in l then Some((l[t].totalSupply, l[t].balanceOf)) else None
  }

  /** The well-formed issues and transfers of t. */
  predicate Moves(c: Call, t: string) {
    (c.fn == "issue" && |c.args| == 4 && c.args[1] == t) ||
    (c.fn == "transfer" && |c.args| == 5 && c.args[0] == t)
  }

  /** The call without its byzantineNum or flag argument. */
  function Blanked(c: Call): Call
    requires |c.args| == 4 || |c.args| == 5
  {
    c.(args := c.args[|c.args| - 1 := ""], updates := None)
  }

  /** The calls that can matter to the balances of t, without the arguments that cannot. */
  function Projected(calls: seq<Call>, t: string): seq<Call> {
    if calls == [] then []
    else (if Moves(calls[0], t) then [Blanked(calls[0])] else []) + Projected(calls[1..], t)
  }

  lemma TransferHoldings(l: Ledger, l': Ledger, c: Call, t: string)
    requires Holdings(l, t) == Holdings(l', t) && |c.args| == 5
    ensures Holdings(TransferCall(l, c).0, t) ==
            Holdings(if c.args[0] == t then TransferCall(l', Blanked(c)).0 else l', t)
  {
  }

  lemma StepHoldings(l: Ledger, l': Ledger, c: Call, t: string)
    requires Holdings(l, t) == Holdings(l', t)
    ensures Holdings(Apply(l, c).0, t) == Holdings(if Moves(c, t) then Apply(l', Blanked(c)).0 else l', t)
  {
    if c.fn == "transfer" {
      if |c.args| == 5 {
        TransferHoldings(l, l', c, t);
      }
    }
  }

  lemma {:induction false} BalancesDependOnProjection(l: Ledger, l': Ledger, calls: seq<Call>, t: string)
    requires Holdings(l, t) == Holdings(l', t)
    ensures Holdings(Run(l, calls), t) == Holdings(Run(l', Projected(calls, t)), t)
    decreases |calls|
  {
    if calls != [] {
      var c := calls[0];
      StepHoldings(l, l', c, t);
      if Moves(c, t) {
        assert Projected(calls, t) == [Blanked(c)] + Projected(calls[1..], t);
        BalancesDependOnProjection(Apply(l, c).0, Apply(l', Blanked(c)).0, calls[1..], t);
      } else {
        assert Projected(calls, t) == Projected(calls[1..], t);
        BalancesDependOnProjection(Apply(l, c).0, l', calls[1..], t);
      }
    }
  }

  /**
   Two histories that agree on the issues and transfers of t, flags and byzantine numbers aside,
   leave t with the same balances, whatever else either of them does.
   */
  lemma BalancesDoNotInterfere(calls: seq<Call>, calls': seq<Call>, t: string)
    requires Projected(calls, t) == Projected(calls', t)
    ensures Holdings(Run(map[], calls), t) == Holdings(Run(map[], calls'), t)
  {
    BalancesDependOnProjection(map[], map[], calls, t);
    BalancesDependOnProjection(map[], map[], calls', t);
  }

  // ----- peers -----

  function Reporting(l: Ledger, t: string): Option<map<string, bool>> {
    if t in l then Some(l[t].peers) else None
  }

  /** The well-formed issues of t and updates of its peers. */
  predicate Switches(c: Call, t: string) {
    (c.fn == "issue" && |c.args| == 4 && c.args[1] == t) ||
    (c.fn == "setPeer" && |c.args| == 3 && c.args[0] == t)
  }

  function Switchings(calls: seq<Call>, t: string): seq<Call> {
    if calls == [] then []
    else (if Switches(calls[0], t) then [calls[0]] else []) + Switchings(calls[1..], t)
  }

  lemma {:induction false} PeersDependOnSwitchings(l: Ledger, l': Ledger, calls: seq<Call>, t: string)
    requires Reporting(l, t) == Reporting(l', t)
    ensures Reporting(Run(l, calls), t) == Reporting(Run(l', Switchings(calls, t)), t)
    decreases |calls|
  {
    if calls != [] {
      var c := calls[0];
      if Switches(c, t) {
        assert Switchings(calls, t) == [c] + Switchings(calls[1..], t);
        PeersDependOnSwitchings(Apply(l, c).0, Apply(l', c).0, calls[1..], t);
      } else {
        assert Switchings(calls, t) == Switchings(calls[1..], t);
        PeersDependOnSwitchings(Apply(l, c).0, l', calls[1..], t);
      }
    }
  }

  /** All or nothing: one unknown name and the ledger stays; otherwise the named peers, and only they, change. */
  lemma SetPeerIsAtomic(l: Ledger, c: Call) returns (doc: TokenDoc)
    requires LedgerSound(l) && c.fn == "setPeer"
    ensures if |c.args| != 3 then Fails(l, c, BadArity)
            else if !c.getOk then Fails(l, c, GetFailed)
            else if c.args[0] !in l || c.updates.None? then Fails(l, c, Undecodable)
            else
              var t, u := c.args[0], c.updates.value;
              if exists p <- u :: p !in l[t].peers then Fails(l, c, UnknownPeer)
              else if !c.putOk then Fails(l, c, PutFailed)
              else
                && Stores(l, c, t, doc)
                && doc == l[t].(peers := doc.peers, flag := ParseBool(c.args[2]))
                && doc.peers.Keys == l[t].peers.Keys
                && (forall p <- u :: doc.peers[p] == ParseBool(u[p]))
                && (forall p <- l[t].peers :: p !in u ==> doc.peers[p] == l[t].peers[p])
  {
    doc := *;
    if |c.args| == 3 && c.args[0] in l && c.updates.Some? {
      var was := l[c.args[0]];
      if c.updates.value.Keys <= was.peers.Keys {
        doc := was.(peers := Updated(was.peers, c.updates.value).value, flag := ParseBool(c.args[2]));
      }
    }
  }

  lemma PeerNamesDiffer(i: nat, j: nat)
    requires i < j < 10
    ensures PEER_NAMES[i] != PEER_NAMES[j]
  {
    var a, b := PEER_NAMES[i], PEER_NAMES[j];
    assert a[9] != b[9] || |a| != |b|;
  }

  /** After an issue the byzantine organisations are the clamp(byzantineNum, 0, 10) highest-numbered ones. */
  lemma IssuedPeers(l: Ledger, c: Call, org: nat)
    requires c.fn == "issue" && |c.args| == 4 && c.args[1] != "" && c.putOk && 1 <= org <= 10
    ensures var n := Atoi(c.args[3]).value;
            var byzantine := if n < 0 then 0 else if n > 10 then 10 else n;
            var peers := Apply(l, c).0[c.args[1]].peers;
            && peers.Keys == PEERS
            && PEER_NAMES[org - 1] in peers
            && (peers[PEER_NAMES[org - 1]] <==> org <= 10 - byzantine)
  {
    InitialPeersAt(Atoi(c.args[3]).value, org);
  }

  lemma InitialPeersAt(n: int, org: nat)
    requires 1 <= org <= 10
    ensures InitialPeers(n).Keys == PEERS
    ensures InitialPeers(n)[PEER_NAMES[org - 1]] == !(n > 10 - org)
  {
    var name := PEER_NAMES[org - 1];
    InitialPeersKeys(n);
    forall i: nat | i < 10 && i != org - 1
      ensures PEER_NAMES[i] != name
    {
      if i < org - 1 {
        PeerNamesDiffer(i, org - 1);
      } else {
        PeerNamesDiffer(org - 1, i);
      }
    }
    InitialPeersByName(n, name);
  }

  lemma InitialPeersKeys(n: int)
    ensures InitialPeers(n).Keys == PEERS
  {
    assert forall name :: name in InitialPeers(n) <==> name in PEER_NAMES;
  }

  lemma InitialPeersByName(n: int, name: string)
    requires name in InitialPeers(n)
    ensures InitialPeers(n)[name] ==
            if name == PEER_NAMES[9] then !(n > 0)
            else if name == PEER_NAMES[8] then !(n > 1)
            else if name == PEER_NAMES[7] then !(n > 2)
            else if name == PEER_NAMES[6] then !(n > 3)
            else if name == PEER_NAMES[5] then !(n > 4)
            else if name == PEER_NAMES[4] then !(n > 5)
            else if name == PEER_NAMES[3] then !(n > 6)
            else if name == PEER_NAMES[2] then !(n > 7)
            else if name == PEER_NAMES[1] then !(n > 8)
            else !(n > 9)
  {
  }
}
