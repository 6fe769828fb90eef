/**
 The messages byte by byte: which tag, that is field number and wire type, each field of the Fabric
 protos is written with, and in which order.
 */
module Layout {
  import opened Wrappers
  import opened Wire
  import opened Messages

  // ----- varints -----

  /** The number a varint stands for: seven bits a byte, the lowest first. */
  function VarintValue(b: Bytes): nat {
    if b == [] then 0 else b[0] % 128 + 128 * VarintValue(b[1..])
  }

  /** Each byte but the last has its high bit set, and no byte too many is written. */
  lemma {:induction false} VarintLayout(n: nat)
    ensures var b := EncVarint(n);
            && b != [] && VarintValue(b) == n
            && (forall i | 0 <= i < |b| - 1 :: b[i] >= 128)
            && b[|b| - 1] < 128 && (|b| > 1 ==> b[|b| - 1] > 0)
  {
    if n >= 128 {
      VarintLayout(n / 128);
      assert EncVarint(n)[1..] == EncVarint(n / 128);
    }
  }

  // ----- one field -----

  /** A length-delimited field, left out when it is empty. */
  function Chunk(tag: byte, s: Bytes): Bytes {
    if s == [] then [] else Message(tag, Some(s))
  }

  /** An embedded message, left out when it is not set. */
  function Message(tag: byte, m: Option<Bytes>): Bytes {
    match m
    case None => []
    case Some(b) => [tag] + EncVarint(|b|) + b
  }

  /** A number, left out when it is zero; negative numbers as 64-bit two's complement. */
  function Number(tag: byte, n: int): Bytes
    requires -0x8000_0000_0000_0000 <= n < 0x1_0000_0000_0000_0000
  {
    if n == 0 then [] else [tag] + EncVarint(if n < 0 then 0x1_0000_0000_0000_0000 + n else n)
  }

  lemma FieldOnWire(num: FieldNum, v: Value)
    requires num < 16
    ensures Enc([Field(num, v)]) == [8 * num + v.WireType()] + EncValue(v)
  {
    assert Enc([Field(num, v)]) == EncField(Field(num, v)) + Enc([]);
  }

  lemma BytesOnWire(num: FieldNum, s: Bytes)
    requires num < 16
    ensures Enc(BytesField(num, s)) == Chunk(8 * num + 2, s)
  {
    EmbeddedOnWire(num, Some(s));
  }

  lemma EmbeddedOnWire(num: FieldNum, m: Option<Bytes>)
    requires num < 16
    ensures Enc(EmbeddedField(num, m)) == Message(8 * num + 2, m)
  {
    if m.Some? {
      FieldOnWire(num, Len(m.value));
      ConcatAssoc([8 * num + 2], EncVarint(|m.value|), m.value);
    }
  }

  lemma NumberOnWire(num: FieldNum, n: int)
    requires num < 16 && -0x8000_0000_0000_0000 <= n < TWO_64
    ensures Enc(IntField(num, n)) == Number(8 * num, n)
  {
    if n != 0 {
      FieldOnWire(num, IntField(num, n)[0].value);
    }
  }

  // ----- messages of two bytes fields -----

  lemma PairLayout(p: Pair)
    ensures PairBytes(p) == Chunk(0x0A, p.first.Get()) + Chunk(0x12, p.second.Get())
  {
    EncConcat(BytesField(1, p.first.Get()), BytesField(2, p.second.Get()));
    BytesOnWire(1, p.first.Get());
    BytesOnWire(2, p.second.Get());
  }

  /** Field 1, tag 0x0A, and field 2, tag 0x12, of six messages. */
  lemma PairsLayout(e: Envelope, h: Header, s: SignatureHeader, d: Endorsement, a: TransactionAction,
                    p: ProposalResponsePayload)
    ensures MarshalEnvelope(e) == Chunk(0x0A, e.payload.Get()) + Chunk(0x12, e.signature.Get())
    ensures MarshalHeader(h) == Chunk(0x0A, h.channelHeader.Get()) + Chunk(0x12, h.signatureHeader.Get())
    ensures MarshalSignatureHeader(s) == Chunk(0x0A, s.creator.Get()) + Chunk(0x12, s.nonce.Get())
    ensures MarshalEndorsement(d) == Chunk(0x0A, d.endorser.Get()) + Chunk(0x12, d.signature.Get())
    ensures MarshalTransactionAction(a) == Chunk(0x0A, a.header.Get()) + Chunk(0x12, a.payload.Get())
    ensures MarshalProposalResponsePayload(p) == Chunk(0x0A, p.proposalHash.Get()) + Chunk(0x12, p.extension.Get())
  {
    PairLayout(Pair(e.payload, e.signature));
    PairLayout(Pair(h.channelHeader, h.signatureHeader));
    PairLayout(Pair(s.creator, s.nonce));
    PairLayout(Pair(d.endorser, d.signature));
    PairLayout(Pair(a.header, a.payload));
    PairLayout(Pair(p.proposalHash, p.extension));
  }

  // ----- the transaction -----

  lemma PayloadLayout(p: Payload)
    ensures MarshalPayload(p) ==
            Message(0x0A, if p.header.None? then None else Some(MarshalHeader(p.header.value))) +
            Chunk(0x12, p.data.Get())
  {
    var header := if p.header.None? then None else Some(MarshalHeader(p.header.value));
    EncConcat(EmbeddedField(1, header), BytesField(2, p.data.Get()));
    EmbeddedOnWire(1, header);
    BytesOnWire(2, p.data.Get());
  }

  lemma TransactionLayout(t: Transaction, a: TransactionAction)
    ensures MarshalTransaction(Transaction([])) == []
    ensures MarshalTransaction(Transaction([a] + t.actions)) ==
            Message(0x0A, Some(MarshalTransactionAction(a))) + MarshalTransaction(t)
  {
    var m := MarshalTransactionAction(a);
    assert ([a] + t.actions)[1..] == t.actions;
    EncConcat([Field(1, Len(m))], ActionFields(t.actions));
    EmbeddedOnWire(1, Some(m));
  }

  lemma EndorsementFieldsLayout(e: Endorsement, es: seq<Option<Endorsement>>)
    requires AllSet(es)
    ensures Enc(EndorsementFields([Some(e)] + es)) ==
            Message(0x12, Some(MarshalEndorsement(e))) + Enc(EndorsementFields(es))
  {
    assert ([Some(e)] + es)[1..] == es;
    EncConcat([Field(2, Len(MarshalEndorsement(e)))], EndorsementFields(es));
    EmbeddedOnWire(2, Some(MarshalEndorsement(e)));
  }

  function EndorsementChunks(es: seq<Option<Endorsement>>): Bytes
    requires AllSet(es)
  {
    if es == [] then [] else Message(0x12, Some(MarshalEndorsement(es[0].value))) + EndorsementChunks(es[1..])
  }

  lemma {:induction false} EndorsementsLayout(es: seq<Option<Endorsement>>)
    requires AllSet(es)
    ensures Enc(EndorsementFields(es)) == EndorsementChunks(es)
  {
    if es != [] {
      EndorsementsLayout(es[1..]);
      EndorsementFieldsLayout(es[0].value, es[1..]);
      assert es == [Some(es[0].value)] + es[1..];
    }
  }

  lemma EndorsedActionLayout(a: ChaincodeEndorsedAction)
    requires AllSet(a.endorsements)
    ensures MarshalEndorsedAction(a) ==
            Some(Chunk(0x0A, a.proposalResponsePayload.Get()) + EndorsementChunks(a.endorsements))
  {
    EncConcat(BytesField(1, a.proposalResponsePayload.Get()), EndorsementFields(a.endorsements));
    BytesOnWire(1, a.proposalResponsePayload.Get());
    EndorsementsLayout(a.endorsements);
  }

  lemma ActionPayloadLayout(p: ChaincodeActionPayload)
    requires p.action.Some? ==> AllSet(p.action.value.endorsements)
    ensures MarshalActionPayload(p) ==
            Some(Chunk(0x0A, p.chaincodeProposalPayload.Get()) +
                 Message(0x12, if p.action.None? then None else MarshalEndorsedAction(p.action.value)))
  {
    var action := if p.action.None? then None else MarshalEndorsedAction(p.action.value);
    EncConcat(BytesField(1, p.chaincodeProposalPayload.Get()), EmbeddedField(2, action));
    BytesOnWire(1, p.chaincodeProposalPayload.Get());
    EmbeddedOnWire(2, action);
  }

  // ----- what the chaincode did -----

  lemma ResponseLayout(r: Response)
    ensures MarshalResponse(r) == Number(0x08, r.status) + (Chunk(0x12, r.message) + Chunk(0x1A, r.payload.Get()))
  {
    EncConcat(IntField(1, r.status), BytesField(2, r.message) + BytesField(3, r.payload.Get()));
    EncConcat(BytesField(2, r.message), BytesField(3, r.payload.Get()));
    NumberOnWire(1, r.status);
    BytesOnWire(2, r.message);
    BytesOnWire(3, r.payload.Get());
  }

  lemma ChaincodeIDLayout(c: ChaincodeID)
    ensures MarshalChaincodeID(c) == Chunk(0x0A, c.path) + (Chunk(0x12, c.name) + Chunk(0x1A, c.version))
  {
    EncConcat(BytesField(1, c.path), BytesField(2, c.name) + BytesField(3, c.version));
    EncConcat(BytesField(2, c.name), BytesField(3, c.version));
    BytesOnWire(1, c.path);
    BytesOnWire(2, c.name);
    BytesOnWire(3, c.version);
  }

  lemma ActionTailLayout(a: ChaincodeAction)
    ensures Enc(ActionTail(a)) ==
            Message(0x1A, if a.response.None? then None else Some(MarshalResponse(a.response.value))) +
            Message(0x22, if a.chaincodeId.None? then None else Some(MarshalChaincodeID(a.chaincodeId.value)))
  {
    var response := if a.response.None? then None else Some(MarshalResponse(a.response.value));
    var id := if a.chaincodeId.None? then None else Some(MarshalChaincodeID(a.chaincodeId.value));
    EncConcat(EmbeddedField(3, response), EmbeddedField(4, id));
    EmbeddedOnWire(3, response);
    EmbeddedOnWire(4, id);
  }

  lemma ActionLayout(a: ChaincodeAction)
    ensures MarshalAction(a) ==
            Chunk(0x0A, a.results.Get()) + (Chunk(0x12, a.events.Get()) +
            (Message(0x1A, if a.response.None? then None else Some(MarshalResponse(a.response.value))) +
             Message(0x22, if a.chaincodeId.None? then None else Some(MarshalChaincodeID(a.chaincodeId.value)))))
  {
    EncConcat(BytesField(1, a.results.Get()), BytesField(2, a.events.Get()) + ActionTail(a));
    EncConcat(BytesField(2, a.events.Get()), ActionTail(a));
    BytesOnWire(1, a.results.Get());
    BytesOnWire(2, a.events.Get());
    ActionTailLayout(a);
  }

  // ----- the proposal -----

  lemma TimestampLayout(t: Timestamp)
    ensures MarshalTimestamp(t) == Number(0x08, t.seconds) + Number(0x10, t.nanos)
  {
    EncConcat(IntField(1, t.seconds), IntField(2, t.nanos));
    NumberOnWire(1, t.seconds);
    NumberOnWire(2, t.nanos);
  }

  lemma ChannelHeaderHeadLayout(h: ChannelHeader, rest: seq<Field>)
    ensures Enc(ChannelHeaderHead(h, rest)) ==
            Number(0x08, h.typ) + (Number(0x10, h.version) +
            (Message(0x1A, if h.timestamp.None? then None else Some(MarshalTimestamp(h.timestamp.value))) + Enc(rest)))
  {
    var time := if h.timestamp.None? then None else Some(MarshalTimestamp(h.timestamp.value));
    EncConcat(IntField(1, h.typ), IntField(2, h.version) + (EmbeddedField(3, time) + rest));
    EncConcat(IntField(2, h.version), EmbeddedField(3, time) + rest);
    EncConcat(EmbeddedField(3, time), rest);
    NumberOnWire(1, h.typ);
    NumberOnWire(2, h.version);
    EmbeddedOnWire(3, time);
  }

  lemma ChannelHeaderTailLayout(h: ChannelHeader)
    ensures Enc(ChannelHeaderTail(h)) ==
            Chunk(0x22, h.channelId) + (Chunk(0x2A, h.txId) + (Number(0x30, h.epoch) +
            (Chunk(0x3A, h.extension.Get()) + Chunk(0x42, h.tlsCertHash.Get()))))
  {
    EncConcat(BytesField(4, h.channelId), BytesField(5, h.txId) + (IntField(6, h.epoch) + ChannelHeaderEnd(h)));
    EncConcat(BytesField(5, h.txId), IntField(6, h.epoch) + ChannelHeaderEnd(h));
    EncConcat(IntField(6, h.epoch), ChannelHeaderEnd(h));
    EncConcat(BytesField(7, h.extension.Get()), BytesField(8, h.tlsCertHash.Get()));
    BytesOnWire(4, h.channelId);
    BytesOnWire(5, h.txId);
    NumberOnWire(6, h.epoch);
    BytesOnWire(7, h.extension.Get());
    BytesOnWire(8, h.tlsCertHash.Get());
  }

  /** The eight fields of a channel header have tags 0x08 to 0x42. */
  lemma ChannelHeaderLayout(h: ChannelHeader)
    ensures MarshalChannelHeader(h) ==
            Number(0x08, h.typ) + (Number(0x10, h.version) +
            (Message(0x1A, if h.timestamp.None? then None else Some(MarshalTimestamp(h.timestamp.value))) +
            (Chunk(0x22, h.channelId) + (Chunk(0x2A, h.txId) + (Number(0x30, h.epoch) +
            (Chunk(0x3A, h.extension.Get()) + Chunk(0x42, h.tlsCertHash.Get())))))))
  {
    ChannelHeaderHeadLayout(h, ChannelHeaderTail(h));
    ChannelHeaderTailLayout(h);
  }

  lemma SpecLayout(c: ChaincodeSpec)
    ensures MarshalChaincodeSpec(c) ==
            Number(0x08, c.typ) +
            (Message(0x12, if c.chaincodeId.None? then None else Some(MarshalChaincodeID(c.chaincodeId.value))) +
            (Message(0x1A, c.input) + Number(0x20, c.timeout)))
  {
    var id := if c.chaincodeId.None? then None else Some(MarshalChaincodeID(c.chaincodeId.value));
    EncConcat(IntField(1, c.typ), EmbeddedField(2, id) + (EmbeddedField(3, c.input) + IntField(4, c.timeout)));
    EncConcat(EmbeddedField(2, id), EmbeddedField(3, c.input) + IntField(4, c.timeout));
    EncConcat(EmbeddedField(3, c.input), IntField(4, c.timeout));
    NumberOnWire(1, c.typ);
    EmbeddedOnWire(2, id);
    EmbeddedOnWire(3, c.input);
    NumberOnWire(4, c.timeout);
  }

  /** The chaincode spec is field 1 of the invocation, the chaincode id field 2 of the header extension. */
  lemma WrappersLayout(c: ChaincodeSpec, id: Option<ChaincodeID>)
    ensures MarshalInvocationSpec(c) == Message(0x0A, Some(MarshalChaincodeSpec(c)))
    ensures MarshalHeaderExtension(id) ==
            Message(0x12, if id.None? then None else Some(MarshalChaincodeID(id.value)))
  {
    EmbeddedOnWire(1, Some(MarshalChaincodeSpec(c)));
    EmbeddedOnWire(2, if id.None? then None else Some(MarshalChaincodeID(id.value)));
  }

  /** One entry of the transient map after the other, each with its key and its value. */
  function EntryChunks(m: map<Bytes, Bytes>, order: seq<Bytes>): Bytes
    requires forall k <- order :: k in m
  {
    if order == [] then []
    else
      var (key, value) := (order[0], m[order[0]]);
      Message(0x12, Some(Message(0x0A, Some(key)) + Message(0x12, Some(value)))) + EntryChunks(m, order[1..])
  }

  lemma EntryLayout(key: Bytes, value: Bytes)
    ensures EntryBytes(key, value) == Message(0x0A, Some(key)) + Message(0x12, Some(value))
  {
    EncConcat([Field(1, Len(key))], [Field(2, Len(value))]);
    assert [Field(1, Len(key))] + [Field(2, Len(value))] == [Field(1, Len(key)), Field(2, Len(value))];
    EmbeddedOnWire(1, Some(key));
    EmbeddedOnWire(2, Some(value));
  }

  lemma {:induction false} EntriesLayout(m: map<Bytes, Bytes>, order: seq<Bytes>)
    requires forall k <- order :: k in m
    ensures Enc(EntryFields(m, order)) == EntryChunks(m, order)
  {
    if order != [] {
      EntriesLayout(m, order[1..]);
      EntryLayout(order[0], m[order[0]]);
      var entry := EntryBytes(order[0], m[order[0]]);
      EncConcat([Field(2, Len(entry))], EntryFields(m, order[1..]));
      EmbeddedOnWire(2, Some(entry));
    }
  }

  lemma ProposalPayloadLayout(p: ChaincodeProposalPayload, order: seq<Bytes>)
    requires forall k <- order :: k in p.transientMap
    ensures MarshalProposalPayload(p, order) == Chunk(0x0A, p.input.Get()) + EntryChunks(p.transientMap, order)
  {
    EncConcat(BytesField(1, p.input.Get()), EntryFields(p.transientMap, order));
    BytesOnWire(1, p.input.Get());
    EntriesLayout(p.transientMap, order);
  }
}
