/**
 The protobuf messages a transaction is nested from, with the field numbers of the Fabric
 protos. Each message has the bytes proto.Marshal gives, the step by which proto.Unmarshal
 takes in one field, and a round-trip lemma. `Norm` is what the round trip keeps: nil and
 empty byte fields become the same nil.
 */
module Messages {
  import opened Wrappers
  import opened Wire

  // ----- messages of two bytes fields -----

  datatype Pair = Pair(first: Slice, second: Slice) {
    function Norm(): Pair {
      Pair(first.Norm(), second.Norm())
    }
  }

  const NO_PAIR := Pair(Nil, Nil)

  function PairFields(p: Pair): seq<Field> {
    BytesField(1, p.first.Get()) + BytesField(2, p.second.Get())
  }

  function PairBytes(p: Pair): Bytes {
    Enc(PairFields(p))
  }

  function PairStep(acc: Pair, f: Field): Option<Pair> {
    Some(match f
         case Field(1, Len(d)) => acc.(first := Of(d))
         case Field(2, Len(d)) => acc.(second := Of(d))
         case _ => acc)
  }

  /** The next field of the message takes `acc` to `next`; a default value is not on the wire and changes nothing. */
  lemma FoldBytes<M>(step: (M, Field) -> Option<M>, acc: M, next: M, num: FieldNum, s: Bytes, rest: seq<Field>)
    requires if s == [] then next == acc else step(acc, Field(num, Len(s))) == Some(next)
    ensures Fold(step, acc, BytesField(num, s) + rest) == Fold(step, next, rest)
  {
    if s == [] {
      assert BytesField(num, s) + rest == rest;
    } else {
      FoldOne(step, acc, Field(num, Len(s)), rest);
    }
  }

  lemma FoldInt<M>(step: (M, Field) -> Option<M>, acc: M, next: M, num: FieldNum, n: int, rest: seq<Field>)
    requires -0x8000_0000_0000_0000 <= n < TWO_64
    requires if n == 0 then next == acc else step(acc, IntField(num, n)[0]) == Some(next)
    ensures Fold(step, acc, IntField(num, n) + rest) == Fold(step, next, rest)
  {
    if n == 0 {
      assert IntField(num, n) + rest == rest;
    } else {
      FoldOne(step, acc, IntField(num, n)[0], rest);
    }
  }

  lemma FoldEmbedded<M>(
    step: (M, Field) -> Option<M>, acc: M, next: M, num: FieldNum, m: Option<Bytes>, rest: seq<Field>)
    requires if m.None? then next == acc else step(acc, Field(num, Len(m.value))) == Some(next)
    ensures Fold(step, acc, EmbeddedField(num, m) + rest) == Fold(step, next, rest)
  {
    if m.None? {
      assert EmbeddedField(num, m) + rest == rest;
    } else {
      FoldOne(step, acc, Field(num, Len(m.value)), rest);
    }
  }

  lemma FoldLast<M>(step: (M, Field) -> Option<M>, acc: M, next: M, fs: seq<Field>)
    requires if fs == [] then next == acc else |fs| == 1 && step(acc, fs[0]) == Some(next)
    ensures Fold(step, acc, fs) == Some(next)
  {
  }

  lemma PairFold(p: Pair)
    ensures Fold(PairStep, NO_PAIR, PairFields(p)) == Some(p.Norm())
  {
    var mid := Pair(p.first.Norm(), Nil);
    FoldBytes(PairStep, NO_PAIR, mid, 1, p.first.Get(), BytesField(2, p.second.Get()));
    FoldLast(PairStep, mid, p.Norm(), BytesField(2, p.second.Get()));
  }

  lemma PairRoundTrip(p: Pair)
    ensures Unmarshal(PairStep, NO_PAIR, PairBytes(p)) == Some(p.Norm())
  {
    PairFold(p);
    UnmarshalEnc(PairStep, NO_PAIR, PairFields(p));
  }

  datatype Envelope = Envelope(payload: Slice, signature: Slice)
  datatype Header = Header(channelHeader: Slice, signatureHeader: Slice) {
    function Norm(): Header {
      Header(channelHeader.Norm(), signatureHeader.Norm())
    }
  }
  datatype SignatureHeader = SignatureHeader(creator: Slice, nonce: Slice)
  datatype Endorsement = Endorsement(endorser: Slice, signature: Slice) {
    function Norm(): Endorsement {
      Endorsement(endorser.Norm(), signature.Norm())
    }
  }
  datatype TransactionAction = TransactionAction(header: Slice, payload: Slice) {
    function Norm(): TransactionAction {
      TransactionAction(header.Norm(), payload.Norm())
    }
  }
  datatype ProposalResponsePayload = ProposalResponsePayload(proposalHash: Slice, extension: Slice)

  function MarshalEnvelope(e: Envelope): Bytes {
    PairBytes(Pair(e.payload, e.signature))
  }

  function UnmarshalEnvelope(b: Bytes): Option<Envelope> {
    var p :- Unmarshal(PairStep, NO_PAIR, b);
    Some(Envelope(p.first, p.second))
  }

  function MarshalHeader(h: Header): Bytes {
    PairBytes(Pair(h.channelHeader, h.signatureHeader))
  }

  function UnmarshalHeader(b: Bytes): Option<Header> {
    var p :- Unmarshal(PairStep, NO_PAIR, b);
    Some(Header(p.first, p.second))
  }

  function MarshalSignatureHeader(h: SignatureHeader): Bytes {
    PairBytes(Pair(h.creator, h.nonce))
  }

  function UnmarshalSignatureHeader(b: Bytes): Option<SignatureHeader> {
    var p :- Unmarshal(PairStep, NO_PAIR, b);
    Some(SignatureHeader(p.first, p.second))
  }

  function MarshalEndorsement(e: Endorsement): Bytes {
    PairBytes(Pair(e.endorser, e.signature))
  }

  function MarshalTransactionAction(a: TransactionAction): Bytes {
    PairBytes(Pair(a.header, a.payload))
  }

  function MarshalProposalResponsePayload(p: ProposalResponsePayload): Bytes {
    PairBytes(Pair(p.proposalHash, p.extension))
  }

  function UnmarshalProposalResponsePayload(b: Bytes): Option<ProposalResponsePayload> {
    var p :- Unmarshal(PairStep, NO_PAIR, b);
    Some(ProposalResponsePayload(p.first, p.second))
  }

  // ----- common.Payload { Header header = 1; bytes data = 2; } -----

  datatype Payload = Payload(header: Option<Header>, data: Slice) {
    function Norm(): Payload {
      Payload(if header.None? then None else Some(header.value.Norm()), data.Norm())
    }
  }

  function PayloadFields(p: Payload): seq<Field> {
    var header := if p.header.None? then None else Some(MarshalHeader(p.header.value));
    EmbeddedField(1, header) + BytesField(2, p.data.Get())
  }

  function MarshalPayload(p: Payload): Bytes {
    Enc(PayloadFields(p))
  }

  function PayloadStep(acc: Payload, f: Field): Option<Payload> {
    match f
    case Field(1, Len(d)) =>
      var start := if acc.header.None? then NO_PAIR
                 else Pair(acc.header.value.channelHeader, acc.header.value.signatureHeader);
      var p :- Unmarshal(PairStep, start, d);
      Some(acc.(header := Some(Header(p.first, p.second))))
    case Field(2, Len(d)) => Some(acc.(data := Of(d)))
    case _ => Some(acc)
  }

  function UnmarshalPayload(b: Bytes): Option<Payload> {
    Unmarshal(PayloadStep, Payload(None, Nil), b)
  }

  lemma HeaderIsKept(h: Header)
    ensures PayloadStep(Payload(None, Nil), Field(1, Len(MarshalHeader(h)))) == Some(Payload(Some(h.Norm()), Nil))
  {
    PairRoundTrip(Pair(h.channelHeader, h.signatureHeader));
  }

  lemma PayloadFold(p: Payload)
    ensures Fold(PayloadStep, Payload(None, Nil), PayloadFields(p)) == Some(p.Norm())
  {
    var header := if p.header.None? then None else Some(MarshalHeader(p.header.value));
    if p.header.Some? {
      HeaderIsKept(p.header.value);
    }
    var mid := p.Norm().(data := Nil);
    FoldEmbedded(PayloadStep, Payload(None, Nil), mid, 1, header, BytesField(2, p.data.Get()));
    FoldLast(PayloadStep, mid, p.Norm(), BytesField(2, p.data.Get()));
  }

  lemma PayloadRoundTrip(p: Payload)
    ensures UnmarshalPayload(MarshalPayload(p)) == Some(p.Norm())
  {
    PayloadFold(p);
    UnmarshalEnc(PayloadStep, Payload(None, Nil), PayloadFields(p));
  }

  // ----- peer.Transaction { repeated TransactionAction actions = 1; } -----

  datatype Transaction = Transaction(actions: seq<TransactionAction>)

  function ActionFields(actions: seq<TransactionAction>): seq<Field> {
    if actions == [] then []
    else [Field(1, Len(MarshalTransactionAction(actions[0])))] + ActionFields(actions[1..])
  }

  function MarshalTransaction(t: Transaction): Bytes {
    Enc(ActionFields(t.actions))
  }

  function TransactionStep(acc: Transaction, f: Field): Option<Transaction> {
    match f
    case Field(1, Len(d)) =>
      var p :- Unmarshal(PairStep, NO_PAIR, d);
      Some(Transaction(acc.actions + [TransactionAction(p.first, p.second)]))
    case _ => Some(acc)
  }

  function UnmarshalTransaction(b: Bytes): Option<Transaction> {
    Unmarshal(TransactionStep, Transaction([]), b)
  }

  function NormActions(actions: seq<TransactionAction>): (r: seq<TransactionAction>)
    ensures |r| == |actions|
    ensures forall i | 0 <= i < |r| :: r[i] == actions[i].Norm()
  {
    if actions == [] then [] else [actions[0].Norm()] + NormActions(actions[1..])
  }

  lemma OneAction(acc: Transaction, a: TransactionAction)
    ensures TransactionStep(acc, Field(1, Len(MarshalTransactionAction(a)))) ==
            Some(Transaction(acc.actions + [a.Norm()]))
  {
    PairRoundTrip(Pair(a.header, a.payload));
  }

  lemma {:induction false} ActionsFold(acc: Transaction, actions: seq<TransactionAction>)
    ensures Fold(TransactionStep, acc, ActionFields(actions)) ==
            Some(Transaction(acc.actions + NormActions(actions)))
    decreases |actions|
  {
    if actions == [] {
      assert acc.actions + NormActions(actions) == acc.actions;
    } else {
      var a := actions[0];
      OneAction(acc, a);
      FoldOne(TransactionStep, acc, Field(1, Len(MarshalTransactionAction(a))), ActionFields(actions[1..]));
      ActionsFold(Transaction(acc.actions + [a.Norm()]), actions[1..]);
      ConcatAssoc(acc.actions, [a.Norm()], NormActions(actions[1..]));
    }
  }

  lemma TransactionRoundTrip(t: Transaction)
    ensures UnmarshalTransaction(MarshalTransaction(t)) == Some(Transaction(NormActions(t.actions)))
  {
    UnmarshalEnc(TransactionStep, Transaction([]), ActionFields(t.actions));
    ActionsFold(Transaction([]), t.actions);
    assert [] + NormActions(t.actions) == NormActions(t.actions);
  }

  // ----- peer.ChaincodeEndorsedAction -----
  // { bytes proposal_response_payload = 1; repeated Endorsement endorsements = 2; }

  datatype ChaincodeEndorsedAction =
    ChaincodeEndorsedAction(proposalResponsePayload: Slice, endorsements: seq<Option<Endorsement>>)
  {
    function Norm(): ChaincodeEndorsedAction
      requires AllSet(endorsements)
    {
      ChaincodeEndorsedAction(proposalResponsePayload.Norm(), NormEndorsements(endorsements))
    }
  }

  /** Marshalling a repeated field that holds a nil element is an error. */
  predicate AllSet(es: seq<Option<Endorsement>>) {
    forall i | 0 <= i < |es| :: es[i].Some?
  }

  function NormEndorsements(es: seq<Option<Endorsement>>): (r: seq<Option<Endorsement>>)
    requires AllSet(es)
    ensures |r| == |es|
    ensures forall i | 0 <= i < |es| :: r[i] == Some(es[i].value.Norm())
  {
    if es == [] then [] else [Some(es[0].value.Norm())] + NormEndorsements(es[1..])
  }

  function EndorsementFields(es: seq<Option<Endorsement>>): seq<Field>
    requires AllSet(es)
  {
    if es == [] then []
    else [Field(2, Len(MarshalEndorsement(es[0].value)))] + EndorsementFields(es[1..])
  }

  function EndorsedActionFields(a: ChaincodeEndorsedAction): seq<Field>
    requires AllSet(a.endorsements)
  {
    BytesField(1, a.proposalResponsePayload.Get()) + EndorsementFields(a.endorsements)
  }

  function MarshalEndorsedAction(a: ChaincodeEndorsedAction): Option<Bytes> {
    if !AllSet(a.endorsements) then None
    else Some(Enc(EndorsedActionFields(a)))
  }

  function EndorsedActionStep(acc: ChaincodeEndorsedAction, f: Field): Option<ChaincodeEndorsedAction> {
    match f
    case Field(1, Len(d)) => Some(acc.(proposalResponsePayload := Of(d)))
    case Field(2, Len(d)) =>
      var p :- Unmarshal(PairStep, NO_PAIR, d);
      Some(acc.(endorsements := acc.endorsements + [Some(Endorsement(p.first, p.second))]))
    case _ => Some(acc)
  }

  const NO_ENDORSED_ACTION := ChaincodeEndorsedAction(Nil, [])

  lemma EndorsementStep(acc: ChaincodeEndorsedAction, e: Endorsement)
    ensures EndorsedActionStep(acc, Field(2, Len(MarshalEndorsement(e)))) ==
            Some(acc.(endorsements := acc.endorsements + [Some(e.Norm())]))
  {
    PairRoundTrip(Pair(e.endorser, e.signature));
  }

  lemma {:induction false} EndorsementsFold(acc: ChaincodeEndorsedAction, es: seq<Option<Endorsement>>)
    requires AllSet(es)
    ensures Fold(EndorsedActionStep, acc, EndorsementFields(es)) ==
            Some(acc.(endorsements := acc.endorsements + NormEndorsements(es)))
    decreases |es|
  {
    if es == [] {
      assert acc.endorsements + NormEndorsements(es) == acc.endorsements;
    } else {
      var e := es[0].value;
      var f := Field(2, Len(MarshalEndorsement(e)));
      var next := acc.(endorsements := acc.endorsements + [Some(e.Norm())]);
      EndorsementStep(acc, e);
      FoldOne(EndorsedActionStep, acc, f, EndorsementFields(es[1..]));
      EndorsementsFold(next, es[1..]);
      ConcatAssoc(acc.endorsements, [Some(e.Norm())], NormEndorsements(es[1..]));
    }
  }

  lemma EndorsedActionFold(a: ChaincodeEndorsedAction)
    requires AllSet(a.endorsements)
    ensures Fold(EndorsedActionStep, NO_ENDORSED_ACTION, EndorsedActionFields(a)) == Some(a.Norm())
  {
    var p := a.proposalResponsePayload;
    var mid := ChaincodeEndorsedAction(p.Norm(), []);
    FoldBytes(EndorsedActionStep, NO_ENDORSED_ACTION, mid, 1, p.Get(), EndorsementFields(a.endorsements));
    EndorsementsFold(mid, a.endorsements);
    assert [] + NormEndorsements(a.endorsements) == NormEndorsements(a.endorsements);
  }

  lemma EndorsedActionRoundTrip(a: ChaincodeEndorsedAction)
    requires AllSet(a.endorsements)
    ensures Unmarshal(EndorsedActionStep, NO_ENDORSED_ACTION, MarshalEndorsedAction(a).value) == Some(a.Norm())
  {
    EndorsedActionFold(a);
    UnmarshalEnc(EndorsedActionStep, NO_ENDORSED_ACTION, EndorsedActionFields(a));
  }

  // ----- peer.ChaincodeActionPayload -----
  // { bytes chaincode_proposal_payload = 1; ChaincodeEndorsedAction action = 2; }

  datatype ChaincodeActionPayload =
    ChaincodeActionPayload(chaincodeProposalPayload: Slice, action: Option<ChaincodeEndorsedAction>)

  function MarshalActionPayload(p: ChaincodeActionPayload): Option<Bytes> {
    var proposal := BytesField(1, p.chaincodeProposalPayload.Get());
    match p.action
    case None => Some(Enc(proposal + EmbeddedField(2, None)))
    case Some(a) =>
      var action :- MarshalEndorsedAction(a);
      Some(Enc(proposal + EmbeddedField(2, Some(action))))
  }

  function ActionPayloadStep(acc: ChaincodeActionPayload, f: Field): Option<ChaincodeActionPayload> {
    match f
    case Field(1, Len(d)) => Some(acc.(chaincodeProposalPayload := Of(d)))
    case Field(2, Len(d)) =>
      var start := if acc.action.None? then NO_ENDORSED_ACTION else acc.action.value;
      var a :- Unmarshal(EndorsedActionStep, start, d);
      Some(acc.(action := Some(a)))
    case _ => Some(acc)
  }

  function UnmarshalActionPayload(b: Bytes): Option<ChaincodeActionPayload> {
    Unmarshal(ActionPayloadStep, ChaincodeActionPayload(Nil, None), b)
  }

  lemma EndorsedActionIsKept(p: ChaincodeActionPayload, a: ChaincodeEndorsedAction)
    requires p.action == Some(a) && AllSet(a.endorsements)
    ensures ActionPayloadStep(p.(action := None), Field(2, Len(MarshalEndorsedAction(a).value))) ==
            Some(p.(action := Some(a.Norm())))
  {
    EndorsedActionRoundTrip(a);
  }

  function ActionPayloadFields(p: ChaincodeActionPayload): seq<Field>
    requires p.action.Some? ==> AllSet(p.action.value.endorsements)
  {
    BytesField(1, p.chaincodeProposalPayload.Get()) +
    EmbeddedField(2, if p.action.None? then None else MarshalEndorsedAction(p.action.value))
  }

  lemma ActionPayloadFold(p: ChaincodeActionPayload)
    requires p.action.Some? ==> AllSet(p.action.value.endorsements)
    ensures Fold(ActionPayloadStep, ChaincodeActionPayload(Nil, None), ActionPayloadFields(p)) ==
            Some(ChaincodeActionPayload(p.chaincodeProposalPayload.Norm(),
                                        if p.action.None? then None else Some(p.action.value.Norm())))
  {
    var proposal := p.chaincodeProposalPayload;
    var action := EmbeddedField(2, if p.action.None? then None else MarshalEndorsedAction(p.action.value));
    var mid := ChaincodeActionPayload(proposal.Norm(), None);
    FoldBytes(ActionPayloadStep, ChaincodeActionPayload(Nil, None), mid, 1, proposal.Get(), action);
    if p.action.Some? {
      EndorsedActionIsKept(mid.(action := p.action), p.action.value);
      FoldLast(ActionPayloadStep, mid, mid.(action := Some(p.action.value.Norm())), action);
    } else {
      FoldLast(ActionPayloadStep, mid, mid, action);
    }
  }

  lemma ActionPayloadRoundTrip(p: ChaincodeActionPayload)
    requires p.action.Some? ==> AllSet(p.action.value.endorsements)
    ensures MarshalActionPayload(p).Some?
    ensures UnmarshalActionPayload(MarshalActionPayload(p).value) ==
            Some(ChaincodeActionPayload(p.chaincodeProposalPayload.Norm(),
                                        if p.action.None? then None else Some(p.action.value.Norm())))
  {
    ActionPayloadFold(p);
    UnmarshalEnc(ActionPayloadStep, ChaincodeActionPayload(Nil, None), ActionPayloadFields(p));
  }

  // ----- peer.Response { int32 status = 1; string message = 2; bytes payload = 3; } -----

  datatype Response = Response(status: int32, message: Bytes, payload: Slice) {
    function Norm(): Response {
      this.(payload := payload.Norm())
    }
  }

  const NO_RESPONSE := Response(0, [], Nil)

  function ResponseFields(r: Response): seq<Field> {
    IntField(1, r.status) + (BytesField(2, r.message) + BytesField(3, r.payload.Get()))
  }

  function MarshalResponse(r: Response): Bytes {
    Enc(ResponseFields(r))
  }

  function ResponseStep(acc: Response, f: Field): Option<Response> {
    Some(match f
         case Field(1, Varint(n)) => acc.(status := ToInt32(n))
         case Field(2, Len(d)) => acc.(message := d)
         case Field(3, Len(d)) => acc.(payload := Of(d))
         case _ => acc)
  }

  lemma ResponseFold(r: Response)
    ensures Fold(ResponseStep, NO_RESPONSE, ResponseFields(r)) == Some(r.Norm())
  {
    var payload := BytesField(3, r.payload.Get());
    var r1 := Response(r.status, [], Nil);
    Int32RoundTrip(1, r.status);
    FoldInt(ResponseStep, NO_RESPONSE, r1, 1, r.status, BytesField(2, r.message) + payload);
    var r2 := Response(r.status, r.message, Nil);
    FoldBytes(ResponseStep, r1, r2, 2, r.message, payload);
    FoldLast(ResponseStep, r2, r.Norm(), payload);
  }

  lemma ResponseRoundTrip(r: Response)
    ensures Unmarshal(ResponseStep, NO_RESPONSE, MarshalResponse(r)) == Some(r.Norm())
  {
    ResponseFold(r);
    UnmarshalEnc(ResponseStep, NO_RESPONSE, ResponseFields(r));
  }

  // ----- peer.ChaincodeID { string path = 1; string name = 2; string version = 3; } -----

  datatype ChaincodeID = ChaincodeID(path: Bytes, name: Bytes, version: Bytes)

  const NO_CHAINCODE_ID := ChaincodeID([], [], [])

  function MarshalChaincodeID(c: ChaincodeID): Bytes {
    Enc(BytesField(1, c.path) + (BytesField(2, c.name) + BytesField(3, c.version)))
  }

  function ChaincodeIDStep(acc: ChaincodeID, f: Field): Option<ChaincodeID> {
    Some(match f
         case Field(1, Len(d)) => acc.(path := d)
         case Field(2, Len(d)) => acc.(name := d)
         case Field(3, Len(d)) => acc.(version := d)
         case _ => acc)
  }

  lemma ChaincodeIDRoundTrip(c: ChaincodeID)
    ensures Unmarshal(ChaincodeIDStep, NO_CHAINCODE_ID, MarshalChaincodeID(c)) == Some(c)
  {
    var version := BytesField(3, c.version);
    var rest := BytesField(2, c.name) + version;
    UnmarshalEnc(ChaincodeIDStep, NO_CHAINCODE_ID, BytesField(1, c.path) + rest);
    var c1 := ChaincodeID(c.path, [], []);
    FoldBytes(ChaincodeIDStep, NO_CHAINCODE_ID, c1, 1, c.path, rest);
    var c2 := ChaincodeID(c.path, c.name, []);
    FoldBytes(ChaincodeIDStep, c1, c2, 2, c.name, version);
    FoldLast(ChaincodeIDStep, c2, c, version);
  }

  // ----- peer.ChaincodeInvocationSpec { ChaincodeSpec chaincode_spec = 1; } -----

  /** { Type type = 1; ChaincodeID chaincode_id = 2; ChaincodeInput input = 3; int32 timeout = 4; } */
  datatype ChaincodeSpec =
    ChaincodeSpec(typ: int32, chaincodeId: Option<ChaincodeID>, input: Option<Bytes>, timeout: int32)

  const NO_CHAINCODE_SPEC := ChaincodeSpec(0, None, None, 0)

  function ChaincodeSpecFields(c: ChaincodeSpec): seq<Field> {
    var id := if c.chaincodeId.None? then None else Some(MarshalChaincodeID(c.chaincodeId.value));
    IntField(1, c.typ) + (EmbeddedField(2, id) + (EmbeddedField(3, c.input) + IntField(4, c.timeout)))
  }

  function MarshalChaincodeSpec(c: ChaincodeSpec): Bytes {
    Enc(ChaincodeSpecFields(c))
  }

  /** Merging a repeated embedded message is decoding the concatenation of its occurrences. */
  function ChaincodeSpecStep(acc: ChaincodeSpec, f: Field): Option<ChaincodeSpec> {
    match f
    case Field(1, Varint(n)) => Some(acc.(typ := ToInt32(n)))
    case Field(2, Len(d)) =>
      var c :- Unmarshal(ChaincodeIDStep, if acc.chaincodeId.None? then NO_CHAINCODE_ID else acc.chaincodeId.value, d);
      Some(acc.(chaincodeId := Some(c)))
    case Field(3, Len(d)) => Some(acc.(input := Some(if acc.input.None? then d else acc.input.value + d)))
    case Field(4, Varint(n)) => Some(acc.(timeout := ToInt32(n)))
    case _ => Some(acc)
  }

  function UnmarshalChaincodeSpec(b: Bytes): Option<ChaincodeSpec> {
    Unmarshal(ChaincodeSpecStep, NO_CHAINCODE_SPEC, b)
  }

  lemma SpecIDIsKept(acc: ChaincodeSpec, c: ChaincodeID)
    requires acc.chaincodeId.None?
    ensures ChaincodeSpecStep(acc, Field(2, Len(MarshalChaincodeID(c)))) == Some(acc.(chaincodeId := Some(c)))
  {
    ChaincodeIDRoundTrip(c);
  }

  lemma ChaincodeSpecFold(c: ChaincodeSpec)
    ensures Fold(ChaincodeSpecStep, NO_CHAINCODE_SPEC, ChaincodeSpecFields(c)) == Some(c)
  {
    var id := if c.chaincodeId.None? then None else Some(MarshalChaincodeID(c.chaincodeId.value));
    var f3 := EmbeddedField(3, c.input) + IntField(4, c.timeout);
    var c1 := NO_CHAINCODE_SPEC.(typ := c.typ);
    Int32RoundTrip(1, c.typ);
    FoldInt(ChaincodeSpecStep, NO_CHAINCODE_SPEC, c1, 1, c.typ, EmbeddedField(2, id) + f3);
    var c2 := c1.(chaincodeId := c.chaincodeId);
    if c.chaincodeId.Some? {
      SpecIDIsKept(c1, c.chaincodeId.value);
    }
    FoldEmbedded(ChaincodeSpecStep, c1, c2, 2, id, f3);
    var c3 := c2.(input := c.input);
    FoldEmbedded(ChaincodeSpecStep, c2, c3, 3, c.input, IntField(4, c.timeout));
    Int32RoundTrip(4, c.timeout);
    FoldLast(ChaincodeSpecStep, c3, c, IntField(4, c.timeout));
  }

  lemma ChaincodeSpecRoundTrip(c: ChaincodeSpec)
    ensures UnmarshalChaincodeSpec(MarshalChaincodeSpec(c)) == Some(c)
  {
    ChaincodeSpecFold(c);
    UnmarshalEnc(ChaincodeSpecStep, NO_CHAINCODE_SPEC, ChaincodeSpecFields(c));
  }

  /** An embedded message is written with tag and length even when none of its fields is set. */
  function MarshalInvocationSpec(c: ChaincodeSpec): (r: Bytes)
    ensures r != []
  {
    EncNonEmpty([Field(1, Len(MarshalChaincodeSpec(c)))]);
    Enc([Field(1, Len(MarshalChaincodeSpec(c)))])
  }

  function InvocationSpecStep(acc: Option<ChaincodeSpec>, f: Field): Option<Option<ChaincodeSpec>> {
    match f
    case Field(1, Len(d)) =>
      var c :- Unmarshal(ChaincodeSpecStep, if acc.None? then NO_CHAINCODE_SPEC else acc.value, d);
      Some(Some(c))
    case _ => Some(acc)
  }

  /** None when the bytes do not decode, Some(None) when the invocation has no chaincode spec. */
  function UnmarshalInvocationSpec(b: Bytes): Option<Option<ChaincodeSpec>> {
    Unmarshal(InvocationSpecStep, None, b)
  }

  lemma InvocationSpecRoundTrip(c: ChaincodeSpec)
    ensures UnmarshalInvocationSpec(MarshalInvocationSpec(c)) == Some(Some(c))
  {
    var f := Field(1, Len(MarshalChaincodeSpec(c)));
    ChaincodeSpecRoundTrip(c);
    UnmarshalEnc(InvocationSpecStep, None, [f]);
    FoldLast(InvocationSpecStep, None, Some(c), [f]);
  }

  // ----- peer.ChaincodeHeaderExtension { ChaincodeID chaincode_id = 2; } -----

  function MarshalHeaderExtension(id: Option<ChaincodeID>): Bytes {
    Enc(EmbeddedField(2, if id.None? then None else Some(MarshalChaincodeID(id.value))))
  }

  function HeaderExtensionStep(acc: Option<ChaincodeID>, f: Field): Option<Option<ChaincodeID>> {
    match f
    case Field(2, Len(d)) =>
      var c :- Unmarshal(ChaincodeIDStep, if acc.None? then NO_CHAINCODE_ID else acc.value, d);
      Some(Some(c))
    case _ => Some(acc)
  }

  function UnmarshalHeaderExtension(b: Bytes): Option<Option<ChaincodeID>> {
    Unmarshal(HeaderExtensionStep, None, b)
  }

  lemma HeaderExtensionRoundTrip(id: Option<ChaincodeID>)
    ensures UnmarshalHeaderExtension(MarshalHeaderExtension(id)) == Some(id)
  {
    var fs := EmbeddedField(2, if id.None? then None else Some(MarshalChaincodeID(id.value)));
    if id.Some? {
      ChaincodeIDRoundTrip(id.value);
    }
    UnmarshalEnc(HeaderExtensionStep, None, fs);
    FoldLast(HeaderExtensionStep, None, id, fs);
  }

  // ----- peer.ChaincodeAction -----
  // { bytes results = 1; bytes events = 2; Response response = 3; ChaincodeID chaincode_id = 4; }

  datatype ChaincodeAction =
    ChaincodeAction(results: Slice, events: Slice, response: Option<Response>, chaincodeId: Option<ChaincodeID>)
  {
    function Norm(): ChaincodeAction {
      ChaincodeAction(results.Norm(), events.Norm(),
                      if response.None? then None else Some(response.value.Norm()), chaincodeId)
    }

    /** No field is set: such an action marshals to no bytes at all. */
    predicate Blank() {
      results.Get() == [] && events.Get() == [] && response.None? && chaincodeId.None?
    }
  }

  const NO_ACTION := ChaincodeAction(Nil, Nil, None, None)

  function ActionTail(a: ChaincodeAction): seq<Field> {
    EmbeddedField(3, if a.response.None? then None else Some(MarshalResponse(a.response.value))) +
    EmbeddedField(4, if a.chaincodeId.None? then None else Some(MarshalChaincodeID(a.chaincodeId.value)))
  }

  function ActionMessageFields(a: ChaincodeAction): seq<Field> {
    BytesField(1, a.results.Get()) + (BytesField(2, a.events.Get()) + ActionTail(a))
  }

  function MarshalAction(a: ChaincodeAction): Bytes {
    Enc(ActionMessageFields(a))
  }

  function ActionStep(acc: ChaincodeAction, f: Field): Option<ChaincodeAction> {
    match f
    case Field(1, Len(d)) => Some(acc.(results := Of(d)))
    case Field(2, Len(d)) => Some(acc.(events := Of(d)))
    case Field(3, Len(d)) =>
      var r :- Unmarshal(ResponseStep, if acc.response.None? then NO_RESPONSE else acc.response.value, d);
      Some(acc.(response := Some(r)))
    case Field(4, Len(d)) =>
      var c :- Unmarshal(ChaincodeIDStep, if acc.chaincodeId.None? then NO_CHAINCODE_ID else acc.chaincodeId.value, d);
      Some(acc.(chaincodeId := Some(c)))
    case _ => Some(acc)
  }

  function UnmarshalAction(b: Bytes): Option<ChaincodeAction> {
    Unmarshal(ActionStep, NO_ACTION, b)
  }

  lemma ResponseIsKept(acc: ChaincodeAction, r: Response)
    requires acc.response.None?
    ensures ActionStep(acc, Field(3, Len(MarshalResponse(r)))) == Some(acc.(response := Some(r.Norm())))
  {
    ResponseRoundTrip(r);
  }

  lemma ChaincodeIDIsKept(acc: ChaincodeAction, c: ChaincodeID)
    requires acc.chaincodeId.None?
    ensures ActionStep(acc, Field(4, Len(MarshalChaincodeID(c)))) == Some(acc.(chaincodeId := Some(c)))
  {
    ChaincodeIDRoundTrip(c);
  }

  lemma ActionTailFold(a: ChaincodeAction)
    ensures Fold(ActionStep, ChaincodeAction(a.results.Norm(), a.events.Norm(), None, None), ActionTail(a)) ==
            Some(a.Norm())
  {
    var a2 := ChaincodeAction(a.results.Norm(), a.events.Norm(), None, None);
    var a3 := a2.(response := a.Norm().response);
    var response := if a.response.None? then None else Some(MarshalResponse(a.response.value));
    var id := if a.chaincodeId.None? then None else Some(MarshalChaincodeID(a.chaincodeId.value));
    if a.response.Some? {
      ResponseIsKept(a2, a.response.value);
    }
    if a.chaincodeId.Some? {
      ChaincodeIDIsKept(a3, a.chaincodeId.value);
    }
    FoldEmbedded(ActionStep, a2, a3, 3, response, EmbeddedField(4, id));
    FoldLast(ActionStep, a3, a.Norm(), EmbeddedField(4, id));
  }

  lemma ActionFold(a: ChaincodeAction)
    ensures Fold(ActionStep, NO_ACTION, ActionMessageFields(a)) == Some(a.Norm())
  {
    var tail := ActionTail(a);
    var a1 := ChaincodeAction(a.results.Norm(), Nil, None, None);
    FoldBytes(ActionStep, NO_ACTION, a1, 1, a.results.Get(), BytesField(2, a.events.Get()) + tail);
    var a2 := ChaincodeAction(a.results.Norm(), a.events.Norm(), None, None);
    FoldBytes(ActionStep, a1, a2, 2, a.events.Get(), tail);
    ActionTailFold(a);
  }

  lemma ActionRoundTrip(a: ChaincodeAction)
    ensures UnmarshalAction(MarshalAction(a)) == Some(a.Norm())
  {
    ActionFold(a);
    UnmarshalEnc(ActionStep, NO_ACTION, ActionMessageFields(a));
  }

  lemma BlankActionIsEmpty(a: ChaincodeAction)
    ensures MarshalAction(a) == [] <==> a.Blank()
  {
    EncNonEmpty(ActionMessageFields(a));
  }

  // ----- google.protobuf.Timestamp { int64 seconds = 1; int32 nanos = 2; } -----

  datatype Timestamp = Timestamp(seconds: int64, nanos: int32)

  const NO_TIMESTAMP := Timestamp(0, 0)

  function MarshalTimestamp(t: Timestamp): Bytes {
    Enc(IntField(1, t.seconds) + IntField(2, t.nanos))
  }

  function TimestampStep(acc: Timestamp, f: Field): Option<Timestamp> {
    Some(match f
         case Field(1, Varint(n)) => acc.(seconds := ToInt64(n))
         case Field(2, Varint(n)) => acc.(nanos := ToInt32(n))
         case _ => acc)
  }

  lemma TimestampRoundTrip(t: Timestamp)
    ensures Unmarshal(TimestampStep, NO_TIMESTAMP, MarshalTimestamp(t)) == Some(t)
  {
    var nanos := IntField(2, t.nanos);
    UnmarshalEnc(TimestampStep, NO_TIMESTAMP, IntField(1, t.seconds) + nanos);
    var t1 := Timestamp(t.seconds, 0);
    Int64RoundTrip(1, t.seconds);
    FoldInt(TimestampStep, NO_TIMESTAMP, t1, 1, t.seconds, nanos);
    Int32RoundTrip(2, t.nanos);
    FoldLast(TimestampStep, t1, t, nanos);
  }

  // ----- common.ChannelHeader -----

  datatype ChannelHeader = ChannelHeader(
    typ: int32, version: int32, timestamp: Option<Timestamp>, channelId: Bytes,
    txId: Bytes, epoch: uint64, extension: Slice, tlsCertHash: Slice)
  {
    function Norm(): ChannelHeader {
      this.(extension := extension.Norm(), tlsCertHash := tlsCertHash.Norm())
    }
  }

  const NO_CHANNEL_HEADER := ChannelHeader(0, 0, None, [], [], 0, Nil, Nil)

  function ChannelHeaderHead(h: ChannelHeader, rest: seq<Field>): seq<Field> {
    IntField(1, h.typ) + (IntField(2, h.version) +
    (EmbeddedField(3, if h.timestamp.None? then None else Some(MarshalTimestamp(h.timestamp.value))) + rest))
  }

  function ChannelHeaderTail(h: ChannelHeader): seq<Field> {
    BytesField(4, h.channelId) + (BytesField(5, h.txId) + (IntField(6, h.epoch) + ChannelHeaderEnd(h)))
  }

  function ChannelHeaderEnd(h: ChannelHeader): seq<Field> {
    BytesField(7, h.extension.Get()) + BytesField(8, h.tlsCertHash.Get())
  }

  function MarshalChannelHeader(h: ChannelHeader): Bytes {
    Enc(ChannelHeaderHead(h, ChannelHeaderTail(h)))
  }

  function ChannelHeaderStep(acc: ChannelHeader, f: Field): Option<ChannelHeader> {
    match f
    case Field(1, Varint(n)) => Some(acc.(typ := ToInt32(n)))
    case Field(2, Varint(n)) => Some(acc.(version := ToInt32(n)))
    case Field(3, Len(d)) =>
      var t :- Unmarshal(TimestampStep, if acc.timestamp.None? then NO_TIMESTAMP else acc.timestamp.value, d);
      Some(acc.(timestamp := Some(t)))
    case Field(4, Len(d)) => Some(acc.(channelId := d))
    case Field(5, Len(d)) => Some(acc.(txId := d))
    case Field(6, Varint(n)) => Some(acc.(epoch := n % TWO_64))
    case Field(7, Len(d)) => Some(acc.(extension := Of(d)))
    case Field(8, Len(d)) => Some(acc.(tlsCertHash := Of(d)))
    case _ => Some(acc)
  }

  function UnmarshalChannelHeader(b: Bytes): Option<ChannelHeader> {
    Unmarshal(ChannelHeaderStep, NO_CHANNEL_HEADER, b)
  }

  lemma ChannelHeaderHeadFold(h: ChannelHeader, rest: seq<Field>)
    ensures Fold(ChannelHeaderStep, NO_CHANNEL_HEADER, ChannelHeaderHead(h, rest)) ==
            Fold(ChannelHeaderStep,
                 NO_CHANNEL_HEADER.(typ := h.typ, version := h.version, timestamp := h.timestamp), rest)
  {
    var time := if h.timestamp.None? then None else Some(MarshalTimestamp(h.timestamp.value));
    var f3 := EmbeddedField(3, time) + rest;
    var h1 := NO_CHANNEL_HEADER.(typ := h.typ);
    Int32RoundTrip(1, h.typ);
    FoldInt(ChannelHeaderStep, NO_CHANNEL_HEADER, h1, 1, h.typ, IntField(2, h.version) + f3);
    var h2 := h1.(version := h.version);
    Int32RoundTrip(2, h.version);
    FoldInt(ChannelHeaderStep, h1, h2, 2, h.version, f3);
    if h.timestamp.Some? {
      TimestampRoundTrip(h.timestamp.value);
    }
    FoldEmbedded(ChannelHeaderStep, h2, h2.(timestamp := h.timestamp), 3, time, rest);
  }

  lemma ChannelHeaderTailFold(h: ChannelHeader)
    ensures Fold(ChannelHeaderStep, NO_CHANNEL_HEADER.(typ := h.typ, version := h.version, timestamp := h.timestamp),
                 ChannelHeaderTail(h)) ==
            Fold(ChannelHeaderStep, h.(extension := Nil, tlsCertHash := Nil), ChannelHeaderEnd(h))
  {
    var h3 := NO_CHANNEL_HEADER.(typ := h.typ, version := h.version, timestamp := h.timestamp);
    var f6 := IntField(6, h.epoch) + ChannelHeaderEnd(h);
    var h4 := h3.(channelId := h.channelId);
    FoldBytes(ChannelHeaderStep, h3, h4, 4, h.channelId, BytesField(5, h.txId) + f6);
    var h5 := h4.(txId := h.txId);
    FoldBytes(ChannelHeaderStep, h4, h5, 5, h.txId, f6);
    FoldInt(ChannelHeaderStep, h5, h.(extension := Nil, tlsCertHash := Nil), 6, h.epoch, ChannelHeaderEnd(h));
  }

  lemma ChannelHeaderEndFold(h: ChannelHeader)
    ensures Fold(ChannelHeaderStep, h.(extension := Nil, tlsCertHash := Nil), ChannelHeaderEnd(h)) == Some(h.Norm())
  {
    var f8 := BytesField(8, h.tlsCertHash.Get());
    var h6 := h.(extension := Nil, tlsCertHash := Nil);
    var h7 := h6.(extension := h.extension.Norm());
    FoldBytes(ChannelHeaderStep, h6, h7, 7, h.extension.Get(), f8);
    FoldLast(ChannelHeaderStep, h7, h.Norm(), f8);
  }

  lemma ChannelHeaderRoundTrip(h: ChannelHeader)
    ensures UnmarshalChannelHeader(MarshalChannelHeader(h)) == Some(h.Norm())
  {
    UnmarshalEnc(ChannelHeaderStep, NO_CHANNEL_HEADER, ChannelHeaderHead(h, ChannelHeaderTail(h)));
    ChannelHeaderHeadFold(h, ChannelHeaderTail(h));
    ChannelHeaderTailFold(h);
    ChannelHeaderEndFold(h);
  }

  // ----- peer.ChaincodeProposalPayload { bytes input = 1; map<string, bytes> TransientMap = 2; } -----

  datatype ChaincodeProposalPayload = ChaincodeProposalPayload(input: Slice, transientMap: map<Bytes, Bytes>)

  const NO_PROPOSAL_PAYLOAD := ChaincodeProposalPayload(Nil, map[])

  /** A map entry writes its key and its value even when they are empty. */
  function EntryBytes(key: Bytes, value: Bytes): Bytes {
    Enc([Field(1, Len(key)), Field(2, Len(value))])
  }

  function EntryFields(m: map<Bytes, Bytes>, order: seq<Bytes>): seq<Field>
    requires forall k <- order :: k in m
  {
    if order == [] then []
    else [Field(2, Len(EntryBytes(order[0], m[order[0]])))] + EntryFields(m, order[1..])
  }

  function ProposalPayloadFields(p: ChaincodeProposalPayload, order: seq<Bytes>): seq<Field>
    requires forall k <- order :: k in p.transientMap
  {
    BytesField(1, p.input.Get()) + EntryFields(p.transientMap, order)
  }

  /** `order` is the iteration order the marshaller happens to take through the transient map. */
  function MarshalProposalPayload(p: ChaincodeProposalPayload, order: seq<Bytes>): Bytes
    requires forall k <- order :: k in p.transientMap
  {
    Enc(ProposalPayloadFields(p, order))
  }

  function ProposalPayloadStep(acc: ChaincodeProposalPayload, f: Field): Option<ChaincodeProposalPayload> {
    match f
    case Field(1, Len(d)) => Some(acc.(input := Of(d)))
    case Field(2, Len(d)) =>
      var e :- Unmarshal(PairStep, NO_PAIR, d);
      Some(acc.(transientMap := acc.transientMap[e.first.Get() := e.second.Get()]))
    case _ => Some(acc)
  }

  function UnmarshalProposalPayload(b: Bytes): Option<ChaincodeProposalPayload> {
    Unmarshal(ProposalPayloadStep, NO_PROPOSAL_PAYLOAD, b)
  }

  lemma EntryRoundTrip(key: Bytes, value: Bytes)
    ensures Unmarshal(PairStep, NO_PAIR, EntryBytes(key, value)) == Some(Pair(Of(key), Of(value)))
  {
    var a, b := Field(1, Len(key)), Field(2, Len(value));
    UnmarshalEnc(PairStep, NO_PAIR, [a, b]);
    assert [a] + [b] == [a, b];
    FoldOne(PairStep, NO_PAIR, a, [b]);
    FoldLast(PairStep, Pair(Of(key), Nil), Pair(Of(key), Of(value)), [b]);
  }

  lemma EntryStep(acc: ChaincodeProposalPayload, key: Bytes, value: Bytes)
    ensures ProposalPayloadStep(acc, Field(2, Len(EntryBytes(key, value)))) ==
            Some(acc.(transientMap := acc.transientMap[key := value]))
  {
    EntryRoundTrip(key, value);
  }

  lemma MergeFirst(a: map<Bytes, Bytes>, m: map<Bytes, Bytes>, order: seq<Bytes>)
    requires order != [] && forall k <- order :: k in m
    ensures a[order[0] := m[order[0]]] + (map k | k in order[1..] :: m[k]) == a + (map k | k in order :: m[k])
  {
    assert forall k :: k in order <==> k == order[0] || k in order[1..];
  }

  lemma {:induction false} EntriesFold(acc: ChaincodeProposalPayload, m: map<Bytes, Bytes>, order: seq<Bytes>)
    requires forall k <- order :: k in m
    ensures Fold(ProposalPayloadStep, acc, EntryFields(m, order)) ==
            Some(acc.(transientMap := acc.transientMap + map k | k in order :: m[k]))
    decreases |order|
  {
    if order == [] {
      assert acc.transientMap + map[] == acc.transientMap;
    } else {
      var k0 := order[0];
      EntryStep(acc, k0, m[k0]);
      FoldOne(ProposalPayloadStep, acc, Field(2, Len(EntryBytes(k0, m[k0]))), EntryFields(m, order[1..]));
      EntriesFold(acc.(transientMap := acc.transientMap[k0 := m[k0]]), m, order[1..]);
      MergeFirst(acc.transientMap, m, order);
    }
  }

  lemma ProposalPayloadFold(p: ChaincodeProposalPayload, order: seq<Bytes>)
    requires forall k :: k in order <==> k in p.transientMap
    ensures Fold(ProposalPayloadStep, NO_PROPOSAL_PAYLOAD, ProposalPayloadFields(p, order)) ==
            Some(p.(input := p.input.Norm()))
  {
    var entries := EntryFields(p.transientMap, order);
    var mid := ChaincodeProposalPayload(p.input.Norm(), map[]);
    FoldBytes(ProposalPayloadStep, NO_PROPOSAL_PAYLOAD, mid, 1, p.input.Get(), entries);
    EntriesFold(mid, p.transientMap, order);
    assert map[] + (map k | k in order :: p.transientMap[k]) == p.transientMap;
  }

  lemma ProposalPayloadRoundTrip(p: ChaincodeProposalPayload, order: seq<Bytes>)
    requires forall k :: k in order <==> k in p.transientMap
    ensures UnmarshalProposalPayload(MarshalProposalPayload(p, order)) == Some(p.(input := p.input.Norm()))
  {
    ProposalPayloadFold(p, order);
    UnmarshalEnc(ProposalPayloadStep, NO_PROPOSAL_PAYLOAD, ProposalPayloadFields(p, order));
  }
}
