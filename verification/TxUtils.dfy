/** Endorsing, assembling, signing and unpacking a transaction: server/protoutil/txutils.go and proputils.go. */
module TxUtils {
  import opened Wrappers
  import opened Wire
  import opened Messages

  datatype Error =
    | NoResponses
    | Malformed
    | SignerFailed
    | CreatorMismatch
    | ResponseFailed(status: int32)
    | PayloadMismatch
    | NilElement
    | NilArguments
    | NilHeader
    | NoActions
    | NoPayload
    | NoExtension

  /** SHA-256, known only by the length of its digests. */
  type Digest = Bytes -> Bytes

  ghost predicate IsDigest(digest: Digest) {
    forall b :: |digest(b)| == 32
  }

  /** The digest tells these two texts apart; no digest of fixed length can do so for all. */
  ghost predicate NoCollision(digest: Digest, a: Bytes, b: Bytes) {
    digest(a) == digest(b) ==> a == b
  }

  lemma AppendInjective<T>(a: seq<T>, b: seq<T>, a': seq<T>, b': seq<T>)
    requires |a| == |a'|
    ensures a + b == a' + b' <==> a == a' && b == b'
  {
    if a + b == a' + b' {
      assert a == (a + b)[..|a|] && a' == (a' + b')[..|a|];
      assert b == (a + b)[|a|..] && b' == (a' + b')[|a|..];
    }
  }

  /** An identity: `identity` is what Serialize returns, `sign` may fail on any message. */
  datatype Signer = Signer(identity: Option<Bytes>, sign: Bytes -> Option<Bytes>)

  ghost predicate NeverFails(s: Signer) {
    s.identity.Some? && forall m :: s.sign(m).Some?
  }

  datatype Proposal = Proposal(header: Slice, payload: Slice)
  datatype ProposalResponse =
    ProposalResponse(version: int32, response: Response, payload: Slice, endorsement: Option<Endorsement>)

  // ----- proposal hashes -----

  class Hasher {
    const digest: Digest
    var written: Bytes

    constructor (digest: Digest)
      ensures this.digest == digest && written == []
    {
      this.digest := digest;
      written := [];
    }

    method Write(p: Bytes)
      modifies this
      ensures written == old(written) + p
    {
      written := written + p;
    }

    method Sum() returns (d: Bytes)
      ensures d == digest(written)
    {
      d := digest(written);
    }
  }

  /** The proposal payload that goes into the transaction: the input, without the transient map. */
  function Stripped(p: ChaincodeProposalPayload): Bytes {
    MarshalProposalPayload(ChaincodeProposalPayload(p.input, map[]), [])
  }

  function GetBytesProposalPayloadForTx(p: Option<ChaincodeProposalPayload>): Result<Bytes, Error> {
    if p.None? then Err(NilArguments) else Ok(Stripped(p.value))
  }

  predicate HashArguments(header: Option<Header>, payload: Slice) {
    header.Some? && header.value.channelHeader.Of? && header.value.signatureHeader.Of? && payload.Of?
  }

  /** What the committer hashes. */
  function ProposalHash2(digest: Digest, header: Option<Header>, payload: Slice): Result<Bytes, Error> {
    if !HashArguments(header, payload) then Err(NilArguments)
    else Ok(digest(header.value.channelHeader.data + header.value.signatureHeader.data + payload.data))
  }

  /** What the endorser hashes: the committer's hash of the payload once its transient map is gone. */
  function ProposalHash1(digest: Digest, header: Option<Header>, payload: Slice): Result<Bytes, Error> {
    if !HashArguments(header, payload) then Err(NilArguments)
    else
      var p :- OrError(UnmarshalProposalPayload(payload.data), Malformed);
      ProposalHash2(digest, header, Of(Stripped(p)))
  }

  /**
   What a committer's hash stands for: it exists when both headers and the payload do, and two of
   them are equal exactly when what is hashed is, header after header and then the payload.
   */
  lemma HashIdentifies(
    digest: Digest, header: Option<Header>, payload: Slice, header': Option<Header>, payload': Slice)
    ensures ProposalHash2(digest, header, payload) == Err(NilArguments) <==>
            header.None? || header.value.channelHeader.Nil? || header.value.signatureHeader.Nil? || payload.Nil?
    ensures var h, h' := ProposalHash2(digest, header, payload), ProposalHash2(digest, header', payload');
            h.Ok? && h'.Ok? ==>
              var (c, s), (c', s') := (header.value.channelHeader.Get(), header.value.signatureHeader.Get()),
                                      (header'.value.channelHeader.Get(), header'.value.signatureHeader.Get());
              && (NoCollision(digest, c + s + payload.Get(), c' + s' + payload'.Get()) ==>
                    (h == h' <==> c + s + payload.Get() == c' + s' + payload'.Get()))
              && (NoCollision(digest, c + s + payload.Get(), c' + s' + payload'.Get()) &&
                  |c| == |c'| && |s| == |s'| ==>
                    (h == h' <==> c == c' && s == s' && payload == payload'))
  {
    var h, h' := ProposalHash2(digest, header, payload), ProposalHash2(digest, header', payload');
    if h.Ok? && h'.Ok? {
      var (c, s) := (header.value.channelHeader.Get(), header.value.signatureHeader.Get());
      var (c', s') := (header'.value.channelHeader.Get(), header'.value.signatureHeader.Get());
      if |c| == |c'| && |s| == |s'| {
        AppendInjective(c, s, c', s');
        AppendInjective(c + s, payload.Get(), c' + s', payload'.Get());
      }
    }
  }

  method GetProposalHash2(digest: Digest, header: Option<Header>, ccPropPayl: Slice) returns (r: Result<Bytes, Error>)
    ensures r == ProposalHash2(digest, header, ccPropPayl)
  {
    if !HashArguments(header, ccPropPayl) {
      return Err(NilArguments);
    }
    var hash := new Hasher(digest);
    hash.Write(header.value.channelHeader.data);
    hash.Write(header.value.signatureHeader.data);
    hash.Write(ccPropPayl.data);
    var sum := hash.Sum();
    assert [] + header.value.channelHeader.data == header.value.channelHeader.data;
    return Ok(sum);
  }

  method GetProposalHash1(digest: Digest, header: Option<Header>, ccPropPayl: Slice) returns (r: Result<Bytes, Error>)
    ensures r == ProposalHash1(digest, header, ccPropPayl)
  {
    if !HashArguments(header, ccPropPayl) {
      return Err(NilArguments);
    }
    var cpp :- OrError(UnmarshalProposalPayload(ccPropPayl.data), Malformed);
    var ppBytes := GetBytesProposalPayloadForTx(Some(cpp)).value;
    var hash2 := new Hasher(digest);
    hash2.Write(header.value.channelHeader.data);
    hash2.Write(header.value.signatureHeader.data);
    hash2.Write(ppBytes);
    var sum := hash2.Sum();
    assert [] + header.value.channelHeader.data == header.value.channelHeader.data;
    return Ok(sum);
  }

  // ----- endorsement -----

  function ResponsePayloadBytes(
    hash: Bytes, response: Option<Response>, results: Slice, events: Slice, ccid: Option<ChaincodeID>): Bytes
  {
    var action := ChaincodeAction(results, events, response, ccid);
    MarshalProposalResponsePayload(ProposalResponsePayload(Of(hash), Of(MarshalAction(action))))
  }

  function CreateProposalResponse(
    digest: Digest, proposal: Proposal, response: Option<Response>, results: Slice, events: Slice,
    ccid: Option<ChaincodeID>, endorser: Signer): Result<ProposalResponse, Error>
  {
    var hdr :- OrError(UnmarshalHeader(proposal.header.Get()), Malformed);
    var hash :- ProposalHash1(digest, Some(hdr), proposal.payload);
    var prpBytes := ResponsePayloadBytes(hash, response, results, events, ccid);
    var id :- OrError(endorser.identity, SignerFailed);
    var signature :- OrError(endorser.sign(prpBytes + id), SignerFailed);
    var ok: Bytes := [79, 75];
    Ok(ProposalResponse(1, Response(200, ok, Nil), Of(prpBytes), Some(Endorsement(Of(id), Of(signature)))))
  }

  /** Carries the given response and no endorsement. */
  function CreateProposalResponseFailure(
    digest: Digest, proposal: Proposal, response: Response, results: Slice, events: Slice,
    chaincodeName: Bytes): Result<ProposalResponse, Error>
  {
    var hdr :- OrError(UnmarshalHeader(proposal.header.Get()), Malformed);
    var hash :- ProposalHash1(digest, Some(hdr), proposal.payload);
    var ccid := ChaincodeID([], chaincodeName, []);
    Ok(ProposalResponse(0, response, Of(ResponsePayloadBytes(hash, Some(response), results, events, Some(ccid))), None))
  }

  // ----- assembly -----

  predicate Successful(r: ProposalResponse) {
    200 <= r.response.status < 400
  }

  function FirstFault(resps: seq<ProposalResponse>, i: nat): Option<Error>
    requires i <= |resps|
    decreases |resps| - i
  {
    if i == |resps| then None
    else if !Successful(resps[i]) then Some(ResponseFailed(resps[i].response.status))
    else if i > 0 && resps[i].payload.Get() != resps[0].payload.Get() then Some(PayloadMismatch)
    else FirstFault(resps, i + 1)
  }

  function Endorsements(resps: seq<ProposalResponse>): (r: seq<Option<Endorsement>>)
    ensures |r| == |resps|
    ensures forall i | 0 <= i < |r| :: r[i] == resps[i].endorsement
  {
    seq(|resps|, i requires 0 <= i < |resps| => resps[i].endorsement)
  }

  function ActionPayloadOf(cpp: ChaincodeProposalPayload, resps: seq<ProposalResponse>): ChaincodeActionPayload
    requires resps != []
  {
    ChaincodeActionPayload(Of(Stripped(cpp)), Some(ChaincodeEndorsedAction(resps[0].payload, Endorsements(resps))))
  }

  /** The payload bytes that get signed; None when an endorsement is nil. */
  function Assemble(hdr: Header, cpp: ChaincodeProposalPayload, resps: seq<ProposalResponse>): Option<Bytes>
    requires resps != []
  {
    var capBytes :- MarshalActionPayload(ActionPayloadOf(cpp, resps));
    var txBytes := MarshalTransaction(Transaction([TransactionAction(hdr.signatureHeader, Of(capBytes))]));
    Some(MarshalPayload(Payload(Some(hdr), Of(txBytes))))
  }

  function SignedTx(proposal: Proposal, signer: Signer, resps: seq<ProposalResponse>): Result<Envelope, Error> {
    if resps == [] then Err(NoResponses)
    else
      var hdr :- OrError(UnmarshalHeader(proposal.header.Get()), Malformed);
      var cpp :- OrError(UnmarshalProposalPayload(proposal.payload.Get()), Malformed);
      var id :- OrError(signer.identity, SignerFailed);
      var shdr :- OrError(UnmarshalSignatureHeader(hdr.signatureHeader.Get()), Malformed);
      if id != shdr.creator.Get() then Err(CreatorMismatch)
      else match FirstFault(resps, 0)
        case Some(e) => Err(e)
        case None =>
          var paylBytes :- OrError(Assemble(hdr, cpp, resps), NilElement);
          var sig :- OrError(signer.sign(paylBytes), SignerFailed);
          Ok(Envelope(Of(paylBytes), Of(sig)))
  }

  method CreateSignedTx(proposal: Proposal, signer: Signer, resps: seq<ProposalResponse>)
    returns (r: Result<Envelope, Error>)
    ensures r == SignedTx(proposal, signer, resps)
  {
    if |resps| == 0 {
      return Err(NoResponses);
    }
    var hdr :- OrError(UnmarshalHeader(proposal.header.Get()), Malformed);
    var pPayl :- OrError(UnmarshalProposalPayload(proposal.payload.Get()), Malformed);
    var signerBytes :- OrError(signer.identity, SignerFailed);
    var shdr :- OrError(UnmarshalSignatureHeader(hdr.signatureHeader.Get()), Malformed);
    if signerBytes != shdr.creator.Get() {
      return Err(CreatorMismatch);
    }

    // all responses are successful and carry the same payload
    var a1 := Nil;
    for n := 0 to |resps|
      invariant n > 0 ==> a1 == resps[0].payload
      invariant FirstFault(resps, 0) == FirstFault(resps, n)
    {
      if resps[n].response.status < 200 || resps[n].response.status >= 400 {
        return Err(ResponseFailed(resps[n].response.status));
      }
      if n == 0 {
        a1 := resps[n].payload;
        continue;
      }
      if a1.Get() != resps[n].payload.Get() {
        return Err(PayloadMismatch);
      }
    }

    var endorsements := new Option<Endorsement>[|resps|](_ => None);
    for n := 0 to |resps|
      invariant endorsements[..n] == Endorsements(resps)[..n]
    {
      endorsements[n] := resps[n].endorsement;
      assert endorsements[..n + 1] == endorsements[..n] + [resps[n].endorsement];
    }
    assert endorsements[..] == Endorsements(resps);

    var cea := ChaincodeEndorsedAction(resps[0].payload, endorsements[..]);
    var propPayloadBytes := GetBytesProposalPayloadForTx(Some(pPayl)).value;
    var cap := ChaincodeActionPayload(Of(propPayloadBytes), Some(cea));
    var capBytes :- OrError(MarshalActionPayload(cap), NilElement);
    var taa := TransactionAction(hdr.signatureHeader, Of(capBytes));
    var txBytes := MarshalTransaction(Transaction([taa]));
    var paylBytes := MarshalPayload(Payload(Some(hdr), Of(txBytes)));
    var sig :- OrError(signer.sign(paylBytes), SignerFailed);
    return Ok(Envelope(Of(paylBytes), Of(sig)));
  }

  // ----- unpacking -----

  function GetPayloads(a: TransactionAction): Result<(ChaincodeActionPayload, ChaincodeAction), Error> {
    var cap :- OrError(UnmarshalActionPayload(a.payload.Get()), Malformed);
    if cap.action.None? || cap.action.value.proposalResponsePayload.Nil? then Err(NoPayload)
    else
      var prp :- OrError(UnmarshalProposalResponsePayload(cap.action.value.proposalResponsePayload.data), Malformed);
      if prp.extension.Nil? then Err(NoExtension)
      else
        var action :- OrError(UnmarshalAction(prp.extension.data), Malformed);
        Ok((cap, action))
  }

  function EnvelopePayload(envBytes: Bytes): Result<Payload, Error> {
    var env :- OrError(UnmarshalEnvelope(envBytes), Malformed);
    OrError(UnmarshalPayload(env.payload.Get()), Malformed)
  }

  /** The header and the first action of the transaction in a marshalled envelope. */
  function OpenTx(envBytes: Bytes): Result<(Option<Header>, TransactionAction), Error> {
    var payl :- EnvelopePayload(envBytes);
    var tx :- OrError(UnmarshalTransaction(payl.data.Get()), Malformed);
    if |tx.actions| == 0 then Err(NoActions) else Ok((payl.header, tx.actions[0]))
  }

  function GetActionFromEnvelope(envBytes: Bytes): Result<ChaincodeAction, Error> {
    var (_, action) :- OpenTx(envBytes);
    var (_, respPayload) :- GetPayloads(action);
    Ok(respPayload)
  }

  /** The hash the endorsers put in a transaction, and the hash a committer computes from its headers and payload. */
  function CommitterHashes(digest: Digest, envBytes: Bytes): Result<(Bytes, Result<Bytes, Error>), Error> {
    var (hdr, action) :- OpenTx(envBytes);
    var cap :- OrError(UnmarshalActionPayload(action.payload.Get()), Malformed);
    if cap.action.None? then Err(NoPayload)
    else
      var prp :- OrError(UnmarshalProposalResponsePayload(cap.action.value.proposalResponsePayload.Get()), Malformed);
      Ok((prp.proposalHash.Get(), ProposalHash2(digest, hdr, cap.chaincodeProposalPayload)))
  }

  // ----- transaction ids -----

  function HexDigit(n: int): byte
    requires 0 <= n < 16
  {
    if n < 10 then 48 + n else 87 + n
  }

  function Hex(b: Bytes): Bytes {
    if b == [] then [] else [HexDigit(b[0] / 16), HexDigit(b[0] % 16)] + Hex(b[1..])
  }

  function ComputeTxID(digest: Digest, nonce: Bytes, creator: Bytes): Bytes {
    Hex(digest(nonce + creator))
  }

  /** The number of a lower-case hexadecimal digit. */
  function HexValue(c: byte): Option<int> {
    if 48 <= c <= 57 then Some(c - 48) else if 97 <= c <= 102 then Some(c - 87) else None
  }

  function UnHex(s: Bytes): Option<Bytes> {
    if s == [] then Some([])
    else if |s| == 1 then None
    else
      var high :- HexValue(s[0]);
      var low :- HexValue(s[1]);
      var rest :- UnHex(s[2..]);
      Some([16 * high + low] + rest)
  }

  lemma {:induction false} HexRoundTrip(b: Bytes)
    ensures |Hex(b)| == 2 * |b| && UnHex(Hex(b)) == Some(b)
  {
    if b != [] {
      HexRoundTrip(b[1..]);
      assert Hex(b)[2..] == Hex(b[1..]);
      assert [b[0]] + b[1..] == b;
    }
  }

  /** A transaction id is the digest of nonce followed by creator, in hexadecimal digits. */
  lemma TxIDIdentifies(digest: Digest, nonce: Bytes, creator: Bytes, nonce': Bytes, creator': Bytes)
    ensures UnHex(ComputeTxID(digest, nonce, creator)) == Some(digest(nonce + creator))
    ensures NoCollision(digest, nonce + creator, nonce' + creator') ==>
              (ComputeTxID(digest, nonce, creator) == ComputeTxID(digest, nonce', creator') <==>
               nonce + creator == nonce' + creator')
  {
    HexRoundTrip(digest(nonce + creator));
    HexRoundTrip(digest(nonce' + creator'));
  }

  lemma TxIDsDiffer(digest: Digest, nonce: Bytes, creator: Bytes, nonce': Bytes, creator': Bytes)
    requires |nonce| == |nonce'| && NoCollision(digest, nonce + creator, nonce' + creator')
    ensures ComputeTxID(digest, nonce, creator) == ComputeTxID(digest, nonce', creator') <==>
            nonce == nonce' && creator == creator'
  {
    TxIDIdentifies(digest, nonce, creator, nonce', creator');
    AppendInjective(nonce, creator, nonce', creator');
  }

  predicate CheckTxID(digest: Digest, txid: Bytes, nonce: Bytes, creator: Bytes) {
    txid == ComputeTxID(digest, nonce, creator)
  }

  lemma {:induction false} UnHexRoundTrip(s: Bytes)
    requires UnHex(s).Some?
    ensures Hex(UnHex(s).value) == s
  {
    if s != [] {
      UnHexRoundTrip(s[2..]);
      var b := UnHex(s).value;
      assert b[1..] == UnHex(s[2..]).value;
      assert s == [s[0], s[1]] + s[2..];
    }
  }

  /** The check accepts one text alone: the lower-case hexadecimal digest of nonce followed by creator. */
  lemma CheckAcceptsTheDigest(digest: Digest, txid: Bytes, nonce: Bytes, creator: Bytes)
    ensures CheckTxID(digest, txid, nonce, creator) <==> UnHex(txid) == Some(digest(nonce + creator))
  {
    HexRoundTrip(digest(nonce + creator));
    if UnHex(txid).Some? {
      UnHexRoundTrip(txid);
    }
  }

  /**
   Everything a chaincode proposal is made from: `spec` is the chaincode spec of the invocation, `order`
   the marshaller's order through the transient map.
   */
  datatype ProposalInput = ProposalInput(
    typ: int32, chainId: Bytes, spec: ChaincodeSpec, nonce: Bytes, creator: Bytes,
    transientMap: map<Bytes, Bytes>, order: seq<Bytes>, time: Timestamp)
  {
    function Payload(): ChaincodeProposalPayload {
      ChaincodeProposalPayload(Of(MarshalInvocationSpec(spec)), transientMap)
    }

    ghost predicate Valid() {
      forall k :: k in order <==> k in transientMap
    }
  }

  function ChannelHeaderOf(txid: Bytes, p: ProposalInput): ChannelHeader {
    var extension := MarshalHeaderExtension(p.spec.chaincodeId);
    ChannelHeader(p.typ, 0, Some(p.time), p.chainId, txid, 0, Of(extension), Nil)
  }

  function MadeHeaderOf(txid: Bytes, p: ProposalInput): Header {
    Header(Of(MarshalChannelHeader(ChannelHeaderOf(txid, p))),
           Of(MarshalSignatureHeader(SignatureHeader(Of(p.creator), Of(p.nonce)))))
  }

  function CreateProposalWithTxID(txid: Bytes, p: ProposalInput): Proposal
    requires forall k <- p.order :: k in p.transientMap
  {
    Proposal(Of(MarshalHeader(MadeHeaderOf(txid, p))), Of(MarshalProposalPayload(p.Payload(), p.order)))
  }

  /** CreateChaincodeProposalWithTransient, given the nonce it draws. */
  function CreateProposalWithTransient(digest: Digest, p: ProposalInput): (Proposal, Bytes)
    requires forall k <- p.order :: k in p.transientMap
  {
    var txid := ComputeTxID(digest, p.nonce, p.creator);
    (CreateProposalWithTxID(txid, p), txid)
  }

  function GetOrComputeTxID(digest: Digest, envBytes: Bytes): Result<Bytes, Error> {
    var payl :- EnvelopePayload(envBytes);
    if payl.header.None? then Err(NilHeader) else TxIDOfHeader(digest, payl.header.value)
  }

  function TxIDOfHeader(digest: Digest, hdr: Header): Result<Bytes, Error> {
    var chdr :- OrError(UnmarshalChannelHeader(hdr.channelHeader.Get()), Malformed);
    if chdr.txId != [] then Ok(chdr.txId)
    else
      var shdr :- OrError(UnmarshalSignatureHeader(hdr.signatureHeader.Get()), Malformed);
      Ok(ComputeTxID(digest, shdr.nonce.Get(), shdr.creator.Get()))
  }

  // ----- acceptance is unanimity -----

  /** Every endorser succeeded, endorsed, and answered with the payload of the first. */
  predicate Unanimous(resps: seq<ProposalResponse>) {
    resps != [] &&
    forall i | 0 <= i < |resps| ::
      && 200 <= resps[i].response.status < 400
      && resps[i].payload.Get() == resps[0].payload.Get()
      && resps[i].endorsement.Some?
  }

  /** The proposal decodes and names `id` as its creator. */
  predicate CreatedBy(proposal: Proposal, id: Bytes) {
    UnmarshalProposalPayload(proposal.payload.Get()).Some? &&
    match UnmarshalHeader(proposal.header.Get())
    case None => false
    case Some(hdr) =>
      match UnmarshalSignatureHeader(hdr.signatureHeader.Get())
      case None => false
      case Some(shdr) => shdr.creator.Get() == id
  }

  lemma {:induction false} NoFaultIsAgreement(resps: seq<ProposalResponse>, i: nat)
    requires i <= |resps|
    ensures FirstFault(resps, i).None? <==>
            forall j | i <= j < |resps| :: Successful(resps[j]) && resps[j].payload.Get() == resps[0].payload.Get()
    decreases |resps| - i
  {
    if i < |resps| {
      NoFaultIsAgreement(resps, i + 1);
    }
  }

  /** The first response that failed or disagrees decides which error there is, whatever the endorsements are. */
  lemma FirstFaultDecides(
    proposal: Proposal, signer: Signer, resps: seq<ProposalResponse>, i: nat)
    requires signer.identity.Some? && CreatedBy(proposal, signer.identity.value) && i < |resps|
    requires forall j | 0 <= j < i ::
               200 <= resps[j].response.status < 400 && resps[j].payload.Get() == resps[0].payload.Get()
    ensures var status := resps[i].response.status;
            && (status < 200 || status >= 400 ==> SignedTx(proposal, signer, resps) == Err(ResponseFailed(status)))
            && (200 <= status < 400 && resps[i].payload.Get() != resps[0].payload.Get() ==>
                  SignedTx(proposal, signer, resps) == Err(PayloadMismatch))
  {
    FaultFreePrefix(resps, i);
  }

  lemma {:induction false} FaultFreePrefix(resps: seq<ProposalResponse>, i: nat)
    requires i < |resps|
    requires forall j | 0 <= j < i :: Successful(resps[j]) && resps[j].payload.Get() == resps[0].payload.Get()
    ensures FirstFault(resps, 0) == FirstFault(resps, i)
  {
    if i > 0 {
      FaultFreePrefix(resps, i - 1);
    }
  }

  /** The errors before any response is looked at, in the order in which they are found. */
  lemma RefusedAtOnce(proposal: Proposal, signer: Signer, resps: seq<ProposalResponse>)
    ensures var hdr := UnmarshalHeader(proposal.header.Get());
            var r := SignedTx(proposal, signer, resps);
            && (|resps| == 0 <==> r == Err(NoResponses))
            && (|resps| > 0 && (hdr.None? || UnmarshalProposalPayload(proposal.payload.Get()).None?) ==>
                  r == Err(Malformed))
            && (|resps| > 0 && hdr.Some? && UnmarshalProposalPayload(proposal.payload.Get()).Some? ==>
                  var shdr := UnmarshalSignatureHeader(hdr.value.signatureHeader.Get());
                  && (signer.identity.None? ==> r == Err(SignerFailed))
                  && (signer.identity.Some? && shdr.None? ==> r == Err(Malformed))
                  && (r == Err(CreatorMismatch) <==>
                      signer.identity.Some? && shdr.Some? && shdr.value.creator.Get() != signer.identity.value))
  {
    FaultIsOfResponses(resps, 0);
  }

  /** What is left to go wrong once the responses are unanimous is the signature. */
  lemma UnanimousButUnsigned(proposal: Proposal, signer: Signer, resps: seq<ProposalResponse>)
    requires signer.identity.Some? && CreatedBy(proposal, signer.identity.value) && Unanimous(resps)
    ensures SignedTx(proposal, signer, resps).Ok? || SignedTx(proposal, signer, resps) == Err(SignerFailed)
    ensures (forall m :: signer.sign(m).None?) ==> SignedTx(proposal, signer, resps) == Err(SignerFailed)
  {
    NoFaultIsAgreement(resps, 0);
  }

  lemma {:induction false} FaultIsOfResponses(resps: seq<ProposalResponse>, i: nat)
    requires i <= |resps|
    ensures var f := FirstFault(resps, i);
            f.Some? ==> f.value.ResponseFailed? || f.value.PayloadMismatch?
    decreases |resps| - i
  {
    if i < |resps| {
      FaultIsOfResponses(resps, i + 1);
    }
  }

  lemma AcceptanceIsUnanimity(proposal: Proposal, signer: Signer, resps: seq<ProposalResponse>)
    requires NeverFails(signer)
    ensures SignedTx(proposal, signer, resps).Ok? <==>
            CreatedBy(proposal, signer.identity.value) && Unanimous(resps)
  {
    NoFaultIsAgreement(resps, 0);
    if resps != [] {
      assert AllSet(Endorsements(resps)) <==> forall i | 0 <= i < |resps| :: resps[i].endorsement.Some?;
    }
  }

  lemma UnanimityIsSymmetric(a: seq<ProposalResponse>, b: seq<ProposalResponse>)
    requires multiset(a) == multiset(b) && Unanimous(a)
    ensures Unanimous(b)
  {
    assert a[0] in multiset(b);
    forall i | 0 <= i < |b|
      ensures Successful(b[i]) && b[i].payload.Get() == a[0].payload.Get() && b[i].endorsement.Some?
    {
      assert b[i] in multiset(a);
    }
  }

  lemma AcceptanceIgnoresOrder(proposal: Proposal, signer: Signer, a: seq<ProposalResponse>, b: seq<ProposalResponse>)
    requires NeverFails(signer) && multiset(a) == multiset(b)
    ensures SignedTx(proposal, signer, a).Ok? <==> SignedTx(proposal, signer, b).Ok?
  {
    AcceptanceIsUnanimity(proposal, signer, a);
    AcceptanceIsUnanimity(proposal, signer, b);
    if Unanimous(a) {
      UnanimityIsSymmetric(a, b);
    }
    if Unanimous(b) {
      UnanimityIsSymmetric(b, a);
    }
  }

  ghost predicate Agreeing(resps: seq<ProposalResponse>) {
    forall i | 0 <= i < |resps| :: Successful(resps[i]) && resps[i].payload.Get() == resps[0].payload.Get()
  }

  /** Equal payloads and successful statuses are not enough: one response without endorsement spoils them all. */
  lemma MissingEndorsementIsRefused(proposal: Proposal, signer: Signer, resps: seq<ProposalResponse>)
    requires signer.identity.Some? && CreatedBy(proposal, signer.identity.value)
    requires Agreeing(resps) && exists r <- resps :: r.endorsement.None?
    ensures SignedTx(proposal, signer, resps) == Err(NilElement)
  {
    NoFaultIsAgreement(resps, 0);
    var r :| r in resps && r.endorsement.None?;
    var i :| 0 <= i < |resps| && resps[i] == r;
    assert Endorsements(resps)[i].None?;
  }

  // ----- the nested round trip -----

  lemma HeaderRoundTrip(h: Header)
    ensures UnmarshalHeader(MarshalHeader(h)) == Some(h.Norm())
  {
    PairRoundTrip(Pair(h.channelHeader, h.signatureHeader));
  }

  lemma PayloadIsNotEmpty(p: Payload)
    requires p.header.Some?
    ensures MarshalPayload(p) != []
  {
    EncNonEmpty(PayloadFields(p));
  }

  lemma SingleTransactionIsNotEmpty(a: TransactionAction)
    ensures MarshalTransaction(Transaction([a])) != []
  {
    EncNonEmpty(ActionFields([a]));
  }

  lemma ActionPayloadIsNotEmpty(p: ChaincodeActionPayload)
    requires p.action.Some? && AllSet(p.action.value.endorsements)
    ensures MarshalActionPayload(p).Some? && MarshalActionPayload(p).value != []
  {
    EncNonEmpty(BytesField(1, p.chaincodeProposalPayload.Get()) +
                EmbeddedField(2, MarshalEndorsedAction(p.action.value)));
  }

  /** What a committer finds in the envelope of an accepted transaction. */
  lemma OpenSignedTx(proposal: Proposal, signer: Signer, resps: seq<ProposalResponse>,
                     hdr: Header, cpp: ChaincodeProposalPayload)
    requires SignedTx(proposal, signer, resps).Ok?
    requires UnmarshalHeader(proposal.header.Get()) == Some(hdr)
    requires UnmarshalProposalPayload(proposal.payload.Get()) == Some(cpp)
    ensures AllSet(Endorsements(resps))
    ensures var env := SignedTx(proposal, signer, resps).value;
            var found := OpenTx(MarshalEnvelope(env));
            && signer.sign(env.payload.Get()) == Some(env.signature.Get())
            && found.Ok?
            && found.value.0 == Some(hdr.Norm())
            && found.value.1.header == hdr.signatureHeader.Norm()
            && UnmarshalActionPayload(found.value.1.payload.Get()) ==
               Some(ChaincodeActionPayload(Of(Stripped(cpp)).Norm(), Some(ChaincodeEndorsedAction(
                 resps[0].payload.Norm(), NormEndorsements(Endorsements(resps))))))
  {
    var env := SignedTx(proposal, signer, resps).value;
    var cap := ActionPayloadOf(cpp, resps);
    assert Assemble(hdr, cpp, resps) == Some(env.payload.data);
    ActionPayloadRoundTrip(cap);
    ActionPayloadIsNotEmpty(cap);
    var taa := TransactionAction(hdr.signatureHeader, Of(MarshalActionPayload(cap).value));
    TransactionRoundTrip(Transaction([taa]));
    assert NormActions([taa]) == [taa.Norm()];
    SingleTransactionIsNotEmpty(taa);
    var payl := Payload(Some(hdr), Of(MarshalTransaction(Transaction([taa]))));
    PayloadRoundTrip(payl);
    PayloadIsNotEmpty(payl);
    PairRoundTrip(Pair(env.payload, env.signature));
  }

  /** Endorsements that all ran on the same proposal with the same outcome. */
  ghost predicate EndorsedAlike(
    digest: Digest, proposal: Proposal, action: ChaincodeAction, endorsers: seq<Signer>, resps: seq<ProposalResponse>)
  {
    && |endorsers| == |resps| > 0
    && forall i | 0 <= i < |resps| ::
         CreateProposalResponse(digest, proposal, action.response, action.results, action.events,
                                action.chaincodeId, endorsers[i]) == Ok(resps[i])
  }

  lemma EndorsedAlikeIsUnanimous(
    digest: Digest, proposal: Proposal, action: ChaincodeAction, endorsers: seq<Signer>, resps: seq<ProposalResponse>)
    requires EndorsedAlike(digest, proposal, action, endorsers, resps)
    ensures Unanimous(resps)
    ensures UnmarshalHeader(proposal.header.Get()).Some? && proposal.payload.Of?
    ensures UnmarshalProposalPayload(proposal.payload.data).Some?
    ensures var hdr := UnmarshalHeader(proposal.header.Get()).value;
            var hash := ProposalHash1(digest, Some(hdr), proposal.payload);
            && hash.Ok?
            && resps[0].payload == Of(MarshalProposalResponsePayload(
                 ProposalResponsePayload(Of(hash.value), Of(MarshalAction(action)))))
  {
    var hdr := UnmarshalHeader(proposal.header.Get());
    assert CreateProposalResponse(digest, proposal, action.response, action.results, action.events,
                                  action.chaincodeId, endorsers[0]) == Ok(resps[0]);
    assert hdr.Some? && ProposalHash1(digest, hdr, proposal.payload).Ok?;
    forall i | 0 <= i < |resps|
      ensures Successful(resps[i]) && resps[i].payload == resps[0].payload && resps[i].endorsement.Some?
    {
    }
  }

  /** The proposal response payload packed by the endorsers, as any later reader decodes it. */
  lemma ResponsePayloadRoundTrip(hash: Bytes, action: ChaincodeAction)
    requires hash != []
    ensures var b := MarshalProposalResponsePayload(ProposalResponsePayload(Of(hash), Of(MarshalAction(action))));
            && b != []
            && UnmarshalProposalResponsePayload(b) ==
               Some(ProposalResponsePayload(Of(hash), Of(MarshalAction(action)).Norm()))
  {
    var p := Pair(Of(hash), Of(MarshalAction(action)));
    PairRoundTrip(p);
    EncNonEmpty(PairFields(p));
  }

  /** An accepted transaction whose responses carry `hash` and `action`. */
  lemma OpenAgreedTx(
    proposal: Proposal, signer: Signer, resps: seq<ProposalResponse>, hdr: Header, cpp: ChaincodeProposalPayload,
    hash: Bytes, action: ChaincodeAction) returns (cap: ChaincodeActionPayload)
    requires SignedTx(proposal, signer, resps).Ok? && hash != []
    requires resps[0].payload == Of(MarshalProposalResponsePayload(
                                      ProposalResponsePayload(Of(hash), Of(MarshalAction(action)))))
    requires UnmarshalHeader(proposal.header.Get()) == Some(hdr)
    requires UnmarshalProposalPayload(proposal.payload.Get()) == Some(cpp)
    ensures var found := OpenTx(MarshalEnvelope(SignedTx(proposal, signer, resps).value));
            && found.Ok?
            && found.value.0 == Some(hdr.Norm())
            && UnmarshalActionPayload(found.value.1.payload.Get()) == Some(cap)
    ensures cap.chaincodeProposalPayload == Of(Stripped(cpp)).Norm()
    ensures cap.action.Some? && cap.action.value.proposalResponsePayload.Of?
    ensures UnmarshalProposalResponsePayload(cap.action.value.proposalResponsePayload.data) ==
            Some(ProposalResponsePayload(Of(hash), Of(MarshalAction(action)).Norm()))
  {
    OpenSignedTx(proposal, signer, resps, hdr, cpp);
    ResponsePayloadRoundTrip(hash, action);
    cap := ChaincodeActionPayload(Of(Stripped(cpp)).Norm(), Some(ChaincodeEndorsedAction(
      resps[0].payload.Norm(), NormEndorsements(Endorsements(resps)))));
  }

  lemma EndorsedAlikeIsAccepted(
    digest: Digest, proposal: Proposal, action: ChaincodeAction, endorsers: seq<Signer>,
    resps: seq<ProposalResponse>, signer: Signer)
    requires EndorsedAlike(digest, proposal, action, endorsers, resps)
    requires NeverFails(signer) && CreatedBy(proposal, signer.identity.value)
    ensures SignedTx(proposal, signer, resps).Ok?
  {
    EndorsedAlikeIsUnanimous(digest, proposal, action, endorsers, resps);
    AcceptanceIsUnanimity(proposal, signer, resps);
  }

  /** The transaction of endorsers who ran alike, down to the proposal response payload they signed. */
  lemma EndorsedTxAccepted(
    digest: Digest, proposal: Proposal, action: ChaincodeAction, endorsers: seq<Signer>,
    resps: seq<ProposalResponse>, signer: Signer)
    returns (hdr: Header, cpp: ChaincodeProposalPayload, hash: Bytes)
    requires IsDigest(digest)
    requires EndorsedAlike(digest, proposal, action, endorsers, resps)
    requires NeverFails(signer) && CreatedBy(proposal, signer.identity.value)
    ensures UnmarshalHeader(proposal.header.Get()) == Some(hdr)
    ensures UnmarshalProposalPayload(proposal.payload.Get()) == Some(cpp)
    ensures ProposalHash1(digest, Some(hdr), proposal.payload) == Ok(hash) && hash != []
    ensures SignedTx(proposal, signer, resps).Ok?
    ensures resps != [] && resps[0].payload == Of(MarshalProposalResponsePayload(
                                                    ProposalResponsePayload(Of(hash), Of(MarshalAction(action)))))
  {
    EndorsedAlikeIsUnanimous(digest, proposal, action, endorsers, resps);
    hdr := UnmarshalHeader(proposal.header.Get()).value;
    cpp := UnmarshalProposalPayload(proposal.payload.Get()).value;
    hash := ProposalHash1(digest, Some(hdr), proposal.payload).value;
    EndorsedAlikeIsAccepted(digest, proposal, action, endorsers, resps, signer);
    HashIsNotEmpty(digest, hdr, proposal.payload);
  }

  lemma HashIsNotEmpty(digest: Digest, hdr: Header, payload: Slice)
    requires IsDigest(digest) && ProposalHash1(digest, Some(hdr), payload).Ok?
    ensures ProposalHash1(digest, Some(hdr), payload).value != []
  {
  }

  lemma EndorseAssembleExtract(
    digest: Digest, proposal: Proposal, action: ChaincodeAction, endorsers: seq<Signer>,
    resps: seq<ProposalResponse>, signer: Signer)
    requires IsDigest(digest)
    requires EndorsedAlike(digest, proposal, action, endorsers, resps)
    requires NeverFails(signer) && CreatedBy(proposal, signer.identity.value)
    ensures var env := SignedTx(proposal, signer, resps);
            && env.Ok?
            && GetActionFromEnvelope(MarshalEnvelope(env.value)) ==
               if action.Blank() then Err(NoExtension) else Ok(action.Norm())
  {
    var hdr, cpp, hash := EndorsedTxAccepted(digest, proposal, action, endorsers, resps, signer);
    var _ := OpenAgreedTx(proposal, signer, resps, hdr, cpp, hash, action);
    BlankActionIsEmpty(action);
    ActionRoundTrip(action);
  }

  /** The endorsements reach the committer one per response and in the order of the responses. */
  lemma EndorsementsSurvive(proposal: Proposal, signer: Signer, resps: seq<ProposalResponse>)
    requires SignedTx(proposal, signer, resps).Ok?
    ensures var found := OpenTx(MarshalEnvelope(SignedTx(proposal, signer, resps).value));
            && found.Ok?
            && UnmarshalActionPayload(found.value.1.payload.Get()).Some?
            && var cap := UnmarshalActionPayload(found.value.1.payload.Get()).value;
            && cap.action.Some?
            && |cap.action.value.endorsements| == |resps|
            && forall i | 0 <= i < |resps| :: resps[i].endorsement.Some? &&
                 cap.action.value.endorsements[i] == Some(resps[i].endorsement.value.Norm())
  {
    OpenSignedTx(proposal, signer, resps, UnmarshalHeader(proposal.header.Get()).value,
                 UnmarshalProposalPayload(proposal.payload.Get()).value);
  }

  /** Each endorsement in the transaction is its endorser's signature on the response payload in the transaction. */
  lemma EndorsementsVerify(
    digest: Digest, proposal: Proposal, action: ChaincodeAction, endorsers: seq<Signer>,
    resps: seq<ProposalResponse>, signer: Signer)
    returns (signed: Bytes, endorsements: seq<Option<Endorsement>>)
    requires EndorsedAlike(digest, proposal, action, endorsers, resps)
    requires NeverFails(signer) && CreatedBy(proposal, signer.identity.value)
    ensures SignedTx(proposal, signer, resps).Ok?
    ensures var found := OpenTx(MarshalEnvelope(SignedTx(proposal, signer, resps).value));
            && found.Ok?
            && UnmarshalActionPayload(found.value.1.payload.Get()).Some?
            && var cap := UnmarshalActionPayload(found.value.1.payload.Get()).value;
            && cap.action.Some?
            && cap.action.value.proposalResponsePayload.Get() == signed
            && cap.action.value.endorsements == endorsements
    ensures |endorsements| == |endorsers|
    ensures forall i | 0 <= i < |endorsers| :: EndorsementOf(endorsers[i], signed, endorsements[i])
  {
    EndorsedAlikeIsUnanimous(digest, proposal, action, endorsers, resps);
    AcceptanceIsUnanimity(proposal, signer, resps);
    OpenSignedTx(proposal, signer, resps, UnmarshalHeader(proposal.header.Get()).value,
                 UnmarshalProposalPayload(proposal.payload.Get()).value);
    signed := resps[0].payload.Get();
    endorsements := NormEndorsements(Endorsements(resps));
    AllEndorsementsAreSignatures(digest, proposal, action, endorsers, resps);
  }

  /** The endorser's identity, and its signature on the response payload followed by the identity. */
  ghost predicate EndorsementOf(endorser: Signer, signed: Bytes, e: Option<Endorsement>) {
    && e.Some?
    && endorser.identity == Some(e.value.endorser.Get())
    && endorser.sign(signed + e.value.endorser.Get()) == Some(e.value.signature.Get())
  }

  lemma AllEndorsementsAreSignatures(
    digest: Digest, proposal: Proposal, action: ChaincodeAction, endorsers: seq<Signer>, resps: seq<ProposalResponse>)
    requires EndorsedAlike(digest, proposal, action, endorsers, resps)
    ensures AllSet(Endorsements(resps))
    ensures forall i | 0 <= i < |endorsers| ::
              EndorsementOf(endorsers[i], resps[0].payload.Get(), NormEndorsements(Endorsements(resps))[i])
  {
    EndorsedAlikeIsUnanimous(digest, proposal, action, endorsers, resps);
    forall i | 0 <= i < |endorsers|
      ensures EndorsementOf(endorsers[i], resps[0].payload.Get(), NormEndorsements(Endorsements(resps))[i])
    {
      EndorsementIsSignature(digest, proposal, action, endorsers[i], resps[i]);
      assert resps[i].payload.Get() == resps[0].payload.Get();
    }
  }

  lemma EndorsementIsSignature(
    digest: Digest, proposal: Proposal, action: ChaincodeAction, endorser: Signer, resp: ProposalResponse)
    requires CreateProposalResponse(digest, proposal, action.response, action.results, action.events,
                                    action.chaincodeId, endorser) == Ok(resp)
    ensures EndorsementOf(endorser, resp.payload.Get(), resp.endorsement)
  {
  }

  // ----- endorser and committer agree on the hash -----

  lemma StrippedIsEmpty(p: ChaincodeProposalPayload)
    ensures Stripped(p) == [] <==> p.input.Get() == []
  {
    EncNonEmpty(ProposalPayloadFields(ChaincodeProposalPayload(p.input, map[]), []));
  }

  lemma StrippedKeepsOnlyInput(p: ChaincodeProposalPayload, q: ChaincodeProposalPayload)
    requires p.input.Get() == q.input.Get()
    ensures Stripped(p) == Stripped(q)
  {
  }

  /** The endorser hashes what the committer will be given, whatever the transient map and its order on the wire. */
  lemma EndorserHashesStripped(digest: Digest, header: Header, p: ChaincodeProposalPayload, order: seq<Bytes>)
    requires forall k :: k in order <==> k in p.transientMap
    ensures ProposalHash1(digest, Some(header), Of(MarshalProposalPayload(p, order))) ==
            ProposalHash2(digest, Some(header), Of(Stripped(p)))
  {
    ProposalPayloadRoundTrip(p, order);
    StrippedKeepsOnlyInput(p, p.(input := p.input.Norm()));
  }

  lemma HashIgnoresTransientMap(
    digest: Digest, header: Header, p: ChaincodeProposalPayload, q: ChaincodeProposalPayload,
    orderP: seq<Bytes>, orderQ: seq<Bytes>)
    requires p.input == q.input
    requires forall k :: k in orderP <==> k in p.transientMap
    requires forall k :: k in orderQ <==> k in q.transientMap
    ensures ProposalHash1(digest, Some(header), Of(MarshalProposalPayload(p, orderP))) ==
            ProposalHash1(digest, Some(header), Of(MarshalProposalPayload(q, orderQ)))
  {
    EndorserHashesStripped(digest, header, p, orderP);
    EndorserHashesStripped(digest, header, q, orderQ);
    StrippedKeepsOnlyInput(p, q);
  }

  /**
   The committer, recomputing the hash from the transaction alone, gets the hash the endorsers
   signed, exactly when neither header is empty and the proposal has an input.
   */
  lemma CommitterRecomputesHash(
    digest: Digest, proposal: Proposal, action: ChaincodeAction, endorsers: seq<Signer>,
    resps: seq<ProposalResponse>, signer: Signer)
    returns (hdr: Header, cpp: ChaincodeProposalPayload, hash: Bytes)
    requires IsDigest(digest)
    requires EndorsedAlike(digest, proposal, action, endorsers, resps)
    requires NeverFails(signer) && CreatedBy(proposal, signer.identity.value)
    ensures UnmarshalHeader(proposal.header.Get()) == Some(hdr)
    ensures UnmarshalProposalPayload(proposal.payload.Get()) == Some(cpp)
    ensures ProposalHash1(digest, Some(hdr), proposal.payload) == Ok(hash)
    ensures SignedTx(proposal, signer, resps).Ok?
    ensures CommitterHashes(digest, MarshalEnvelope(SignedTx(proposal, signer, resps).value)) == Ok((hash,
              if hdr.channelHeader.Get() == [] || hdr.signatureHeader.Get() == [] || cpp.input.Get() == []
              then Err(NilArguments)
              else Ok(hash)))
  {
    hdr, cpp, hash := EndorsedTxAccepted(digest, proposal, action, endorsers, resps, signer);
    var _ := OpenAgreedTx(proposal, signer, resps, hdr, cpp, hash, action);
    StrippedIsEmpty(cpp);
  }

  // ----- what unpacking refuses -----

  lemma EnvelopeOf(payl: Payload, signature: Slice)
    ensures EnvelopePayload(MarshalEnvelope(Envelope(Of(MarshalPayload(payl)), signature))) == Ok(payl.Norm())
  {
    PairRoundTrip(Pair(Of(MarshalPayload(payl)), signature));
    PayloadRoundTrip(payl);
  }

  lemma HeaderlessHasNoTxID(digest: Digest, data: Slice, signature: Slice)
    ensures GetOrComputeTxID(digest, MarshalEnvelope(Envelope(Of(MarshalPayload(Payload(None, data))), signature))) ==
            Err(NilHeader)
  {
    EnvelopeOf(Payload(None, data), signature);
  }

  lemma PayloadsMissing(a: TransactionAction, cap: ChaincodeActionPayload)
    requires MarshalActionPayload(cap) == Some(a.payload.Get())
    ensures GetPayloads(a) != Err(NoActions)
    ensures GetPayloads(a) == Err(NoPayload) <==>
            cap.action.None? || cap.action.value.proposalResponsePayload.Get() == []
  {
    ActionPayloadRoundTrip(cap);
  }

  function EnvelopeBytes(hdr: Header, actions: seq<TransactionAction>, signature: Slice): Bytes {
    var payl := Payload(Some(hdr), Of(MarshalTransaction(Transaction(actions))));
    MarshalEnvelope(Envelope(Of(MarshalPayload(payl)), signature))
  }

  lemma OpenedEnvelope(hdr: Header, signature: Slice, actions: seq<TransactionAction>)
    ensures OpenTx(EnvelopeBytes(hdr, actions, signature)) ==
            if actions == [] then Err(NoActions) else Ok((Some(hdr.Norm()), actions[0].Norm()))
  {
    EnvelopeOf(Payload(Some(hdr), Of(MarshalTransaction(Transaction(actions)))), signature);
    TransactionRoundTrip(Transaction(actions));
  }

  lemma ExtractionReads(envBytes: Bytes)
    requires OpenTx(envBytes).Ok?
    ensures GetActionFromEnvelope(envBytes) ==
            match GetPayloads(OpenTx(envBytes).value.1) case Ok(r) => Ok(r.1) case Err(e) => Err(e)
  {
  }

  /** A transaction without actions is refused, and an action without endorsed action or response payload. */
  lemma UnpackingErrors(hdr: Header, signature: Slice, actions: seq<TransactionAction>, cap: ChaincodeActionPayload)
    requires actions != [] ==> MarshalActionPayload(cap) == Some(actions[0].payload.Get())
    ensures var r := GetActionFromEnvelope(EnvelopeBytes(hdr, actions, signature));
            && (r == Err(NoActions) <==> actions == [])
            && (actions != [] ==>
                  (r == Err(NoPayload) <==>
                   cap.action.None? || cap.action.value.proposalResponsePayload.Get() == []))
  {
    OpenedEnvelope(hdr, signature, actions);
    if actions != [] {
      ExtractionReads(EnvelopeBytes(hdr, actions, signature));
      PayloadsMissing(actions[0].Norm(), cap);
    }
  }

  // ----- the transaction id survives -----

  lemma MadeHeaderParts(txid: Bytes, p: ProposalInput)
    ensures var hdr := MadeHeaderOf(txid, p).Norm();
            && UnmarshalSignatureHeader(hdr.signatureHeader.Get()) ==
               Some(SignatureHeader(Of(p.creator).Norm(), Of(p.nonce).Norm()))
            && UnmarshalChannelHeader(hdr.channelHeader.Get()) == Some(ChannelHeaderOf(txid, p).Norm())
  {
    ChannelHeaderRoundTrip(ChannelHeaderOf(txid, p));
    PairRoundTrip(Pair(Of(p.creator), Of(p.nonce)));
  }

  lemma ProposalHeaderDecodes(txid: Bytes, p: ProposalInput)
    requires p.Valid()
    ensures var prop := CreateProposalWithTxID(txid, p);
            && CreatedBy(prop, p.creator)
            && UnmarshalHeader(prop.header.Get()).Some?
            && var hdr := UnmarshalHeader(prop.header.Get()).value;
            && UnmarshalChannelHeader(hdr.Norm().channelHeader.Get()) == Some(ChannelHeaderOf(txid, p).Norm())
            && forall digest :: TxIDOfHeader(digest, hdr.Norm()) ==
                 Ok(if txid != [] then txid else ComputeTxID(digest, p.nonce, p.creator))
  {
    HeaderRoundTrip(MadeHeaderOf(txid, p));
    MadeHeaderParts(txid, p);
    ProposalPayloadRoundTrip(p.Payload(), p.order);
  }

  /** Every field of a made proposal decodes to the value its maker gave; version, epoch and TLS hash are not set. */
  lemma MadeProposalReadsBack(txid: Bytes, p: ProposalInput)
    returns (hdr: Header, chdr: ChannelHeader, shdr: SignatureHeader, cpp: ChaincodeProposalPayload)
    requires p.Valid()
    ensures UnmarshalHeader(CreateProposalWithTxID(txid, p).header.Get()) == Some(hdr)
    ensures UnmarshalChannelHeader(hdr.channelHeader.Get()) == Some(chdr)
    ensures UnmarshalSignatureHeader(hdr.signatureHeader.Get()) == Some(shdr)
    ensures UnmarshalProposalPayload(CreateProposalWithTxID(txid, p).payload.Get()) == Some(cpp)
    ensures chdr.typ == p.typ && chdr.channelId == p.chainId && chdr.txId == txid && chdr.timestamp == Some(p.time)
    ensures chdr.version == 0 && chdr.epoch == 0 && chdr.tlsCertHash == Nil
    ensures UnmarshalHeaderExtension(chdr.extension.Get()) == Some(p.spec.chaincodeId)
    ensures shdr.creator.Get() == p.creator && shdr.nonce.Get() == p.nonce
    ensures UnmarshalInvocationSpec(cpp.input.Get()) == Some(Some(p.spec)) && cpp.transientMap == p.transientMap
  {
    HeaderRoundTrip(MadeHeaderOf(txid, p));
    MadeHeaderParts(txid, p);
    HeaderExtensionRoundTrip(p.spec.chaincodeId);
    ProposalPayloadRoundTrip(p.Payload(), p.order);
    InvocationSpecRoundTrip(p.spec);
    hdr, chdr := MadeHeaderOf(txid, p).Norm(), ChannelHeaderOf(txid, p).Norm();
    shdr, cpp := SignatureHeader(Of(p.creator).Norm(), Of(p.nonce).Norm()), p.Payload();
  }

  lemma TxIDOfSignedTx(digest: Digest, proposal: Proposal, signer: Signer, resps: seq<ProposalResponse>)
    requires SignedTx(proposal, signer, resps).Ok?
    ensures UnmarshalHeader(proposal.header.Get()).Some?
    ensures GetOrComputeTxID(digest, MarshalEnvelope(SignedTx(proposal, signer, resps).value)) ==
            TxIDOfHeader(digest, UnmarshalHeader(proposal.header.Get()).value.Norm())
  {
    OpenSignedTx(proposal, signer, resps, UnmarshalHeader(proposal.header.Get()).value,
                 UnmarshalProposalPayload(proposal.payload.Get()).value);
  }

  lemma TxIDSurvivesAssembly(
    digest: Digest, txid: Bytes, p: ProposalInput, signer: Signer, resps: seq<ProposalResponse>)
    requires p.Valid()
    requires SignedTx(CreateProposalWithTxID(txid, p), signer, resps).Ok?
    ensures GetOrComputeTxID(digest, MarshalEnvelope(SignedTx(CreateProposalWithTxID(txid, p), signer, resps).value)) ==
            Ok(if txid != [] then txid else ComputeTxID(digest, p.nonce, p.creator))
  {
    ProposalHeaderDecodes(txid, p);
    TxIDOfSignedTx(digest, CreateProposalWithTxID(txid, p), signer, resps);
  }

  lemma ComputedTxIDIsAccepted(digest: Digest, p: ProposalInput, signer: Signer, resps: seq<ProposalResponse>)
    requires p.Valid()
    requires SignedTx(CreateProposalWithTransient(digest, p).0, signer, resps).Ok?
    ensures var env := SignedTx(CreateProposalWithTransient(digest, p).0, signer, resps).value;
            var txid := GetOrComputeTxID(digest, MarshalEnvelope(env));
            txid.Ok? && CheckTxID(digest, txid.value, p.nonce, p.creator)
  {
    TxIDSurvivesAssembly(digest, ComputeTxID(digest, p.nonce, p.creator), p, signer, resps);
  }

  /** A proposal made by the signer is accepted exactly when the responses are unanimous. */
  lemma OwnProposalAccepted(txid: Bytes, p: ProposalInput, signer: Signer, resps: seq<ProposalResponse>)
    requires p.Valid() && NeverFails(signer) && signer.identity.value == p.creator
    ensures SignedTx(CreateProposalWithTxID(txid, p), signer, resps).Ok? <==> Unanimous(resps)
  {
    ProposalHeaderDecodes(txid, p);
    AcceptanceIsUnanimity(CreateProposalWithTxID(txid, p), signer, resps);
  }

  // ----- made proposals, from endorsement to committer -----

  /** Creator and nonce are not both empty, or the signature header would vanish on the wire. */
  predicate Signable(p: ProposalInput) {
    p.creator != [] || p.nonce != []
  }

  lemma MadeHeader(txid: Bytes, p: ProposalInput) returns (hdr: Header)
    requires p.Valid()
    ensures UnmarshalHeader(CreateProposalWithTxID(txid, p).header.Get()) == Some(hdr)
    ensures hdr.channelHeader.Of? && hdr.channelHeader.data != []
    ensures if Signable(p) then hdr.signatureHeader.Of? && hdr.signatureHeader.data != []
            else hdr.signatureHeader == Nil
  {
    var chdr := ChannelHeaderOf(txid, p);
    EncNonEmpty(ChannelHeaderHead(chdr, ChannelHeaderTail(chdr)));
    EncNonEmpty(PairFields(Pair(Of(p.creator), Of(p.nonce))));
    HeaderRoundTrip(MadeHeaderOf(txid, p));
    hdr := MadeHeaderOf(txid, p).Norm();
  }

  lemma MadePayload(txid: Bytes, p: ProposalInput)
    requires p.Valid()
    ensures UnmarshalProposalPayload(CreateProposalWithTxID(txid, p).payload.Get()) == Some(p.Payload())
  {
    ProposalPayloadRoundTrip(p.Payload(), p.order);
  }

  /** The made header over some other payload bytes, which may come from any other encoder. */
  function WithPayload(txid: Bytes, p: ProposalInput, payload: Bytes): Proposal
    requires forall k <- p.order :: k in p.transientMap
  {
    CreateProposalWithTxID(txid, p).(payload := Of(payload))
  }

  ghost predicate Hashes(digest: Digest, proposal: Proposal) {
    var hdr := UnmarshalHeader(proposal.header.Get());
    hdr.Some? && ProposalHash1(digest, hdr, proposal.payload).Ok?
  }

  lemma MadeHeaderHashes(digest: Digest, txid: Bytes, p: ProposalInput, payload: Bytes)
    requires p.Valid() && UnmarshalProposalPayload(payload).Some?
    ensures Hashes(digest, WithPayload(txid, p, payload)) <==> Signable(p)
  {
    var _ := MadeHeader(txid, p);
  }

  lemma MadeProposalHashes(digest: Digest, txid: Bytes, p: ProposalInput)
    requires p.Valid()
    ensures Hashes(digest, CreateProposalWithTxID(txid, p)) <==> Signable(p)
  {
    MadePayload(txid, p);
    MadeHeaderHashes(digest, txid, p, MarshalProposalPayload(p.Payload(), p.order));
  }

  lemma HashedIsEndorsed(
    digest: Digest, proposal: Proposal, response: Option<Response>, results: Slice, events: Slice,
    ccid: Option<ChaincodeID>, endorser: Signer)
    requires NeverFails(endorser)
    ensures CreateProposalResponse(digest, proposal, response, results, events, ccid, endorser).Ok? <==>
            Hashes(digest, proposal)
  {
  }

  lemma HashErrors(digest: Digest, header: Header, payload: Slice)
    ensures var h := ProposalHash1(digest, Some(header), payload);
            if header.channelHeader.Nil? || header.signatureHeader.Nil? || payload.Nil? then h == Err(NilArguments)
            else if UnmarshalProposalPayload(payload.data).None? then h == Err(Malformed)
            else h.Ok?
  {
  }

  /** An endorsement ends in the error of the header or of the hash, when there is one. */
  lemma EndorsementErrors(
    digest: Digest, proposal: Proposal, response: Option<Response>, results: Slice, events: Slice,
    ccid: Option<ChaincodeID>, endorser: Signer)
    ensures var r := CreateProposalResponse(digest, proposal, response, results, events, ccid, endorser);
            var hdr := UnmarshalHeader(proposal.header.Get());
            && (hdr.None? ==> r == Err(Malformed))
            && (hdr.Some? && ProposalHash1(digest, hdr, proposal.payload).Err? ==>
                  r == Err(ProposalHash1(digest, hdr, proposal.payload).error))
  {
  }

  /** Otherwise it ends in a response or in the failure of the endorser. */
  lemma EndorserErrors(
    digest: Digest, proposal: Proposal, response: Option<Response>, results: Slice, events: Slice,
    ccid: Option<ChaincodeID>, endorser: Signer)
    requires Hashes(digest, proposal)
    ensures var r := CreateProposalResponse(digest, proposal, response, results, events, ccid, endorser);
            && (r.Ok? || r == Err(SignerFailed))
            && (endorser.identity.None? || (forall m :: endorser.sign(m).None?) ==> r == Err(SignerFailed))
  {
  }

  /** An endorser that does not fail answers a made proposal exactly when creator and nonce are not both empty. */
  lemma MadeProposalIsEndorsed(
    digest: Digest, txid: Bytes, p: ProposalInput, response: Option<Response>, results: Slice, events: Slice,
    ccid: Option<ChaincodeID>, endorser: Signer)
    requires p.Valid() && NeverFails(endorser)
    ensures var proposal := CreateProposalWithTxID(txid, p);
            CreateProposalResponse(digest, proposal, response, results, events, ccid, endorser).Ok? <==> Signable(p)
  {
    MadeProposalHashes(digest, txid, p);
    HashedIsEndorsed(digest, CreateProposalWithTxID(txid, p), response, results, events, ccid, endorser);
  }

  /** What an endorser answers: version 1, "OK", its signature, and a payload from which hash and action are read. */
  lemma EndorserAnswer(
    digest: Digest, proposal: Proposal, action: ChaincodeAction, endorser: Signer, hash: Bytes, r: ProposalResponse)
    returns (prp: ProposalResponsePayload)
    requires IsDigest(digest)
    requires CreateProposalResponse(digest, proposal, action.response, action.results, action.events,
                                    action.chaincodeId, endorser) == Ok(r)
    requires ProposalHash1(digest, UnmarshalHeader(proposal.header.Get()), proposal.payload) == Ok(hash)
    ensures r.version == 1 && r.response == Response(200, [79, 75], Nil)
    ensures EndorsementOf(endorser, r.payload.Get(), r.endorsement)
    ensures UnmarshalProposalResponsePayload(r.payload.Get()) == Some(prp)
    ensures prp.proposalHash == Of(hash) && UnmarshalAction(prp.extension.Get()) == Some(action.Norm())
  {
    EndorsementIsSignature(digest, proposal, action, endorser, r);
    AnswerPayload(digest, proposal, action, endorser, hash, r);
    HashIsNotEmpty(digest, UnmarshalHeader(proposal.header.Get()).value, proposal.payload);
    prp := DecodedAnswer(hash, action);
  }

  lemma DecodedAnswer(hash: Bytes, action: ChaincodeAction) returns (prp: ProposalResponsePayload)
    requires hash != []
    ensures UnmarshalProposalResponsePayload(MarshalProposalResponsePayload(
              ProposalResponsePayload(Of(hash), Of(MarshalAction(action))))) == Some(prp)
    ensures prp.proposalHash == Of(hash) && UnmarshalAction(prp.extension.Get()) == Some(action.Norm())
  {
    ActionRoundTrip(action);
    ResponsePayloadRoundTrip(hash, action);
    prp := ProposalResponsePayload(Of(hash), Of(MarshalAction(action)).Norm());
  }

  lemma AnswerPayload(
    digest: Digest, proposal: Proposal, action: ChaincodeAction, endorser: Signer, hash: Bytes, r: ProposalResponse)
    requires CreateProposalResponse(digest, proposal, action.response, action.results, action.events,
                                    action.chaincodeId, endorser) == Ok(r)
    requires ProposalHash1(digest, UnmarshalHeader(proposal.header.Get()), proposal.payload) == Ok(hash)
    ensures r.version == 1 && r.response == Response(200, [79, 75], Nil)
    ensures r.payload == Of(MarshalProposalResponsePayload(
                              ProposalResponsePayload(Of(hash), Of(MarshalAction(action)))))
  {
  }

  lemma {:induction false} Collect<A, B, E>(f: A -> Result<B, E>, xs: seq<A>) returns (ys: seq<B>)
    requires forall x <- xs :: f(x).Ok?
    ensures |ys| == |xs| && forall i | 0 <= i < |xs| :: f(xs[i]) == Ok(ys[i])
  {
    ys := [];
    if xs != [] {
      ys := Collect(f, xs[1..]);
      ys := [f(xs[0]).value] + ys;
    }
  }

  lemma EndorsersAnswer(digest: Digest, proposal: Proposal, action: ChaincodeAction, endorsers: seq<Signer>)
    returns (resps: seq<ProposalResponse>)
    requires Hashes(digest, proposal) && forall e <- endorsers :: NeverFails(e)
    ensures |resps| == |endorsers|
    ensures forall i | 0 <= i < |resps| ::
              CreateProposalResponse(digest, proposal, action.response, action.results, action.events,
                                     action.chaincodeId, endorsers[i]) == Ok(resps[i])
  {
    var f := e => CreateProposalResponse(digest, proposal, action.response, action.results, action.events,
                                         action.chaincodeId, e);
    forall e | e in endorsers
      ensures f(e).Ok?
    {
      HashedIsEndorsed(digest, proposal, action.response, action.results, action.events, action.chaincodeId, e);
    }
    resps := Collect(f, endorsers);
    forall i | 0 <= i < |resps|
      ensures CreateProposalResponse(digest, proposal, action.response, action.results, action.events,
                                     action.chaincodeId, endorsers[i]) == Ok(resps[i])
    {
      assert f(endorsers[i]) == Ok(resps[i]);
    }
  }

  lemma WithPayloadIsCreated(txid: Bytes, p: ProposalInput, payload: Bytes)
    requires p.Valid() && UnmarshalProposalPayload(payload).Some?
    ensures CreatedBy(WithPayload(txid, p, payload), p.creator)
  {
    ProposalHeaderDecodes(txid, p);
  }

  /** A proposal with a made header and any payload that decodes, on its way to the committer. */
  lemma MadeHeaderIsCommitted(
    digest: Digest, txid: Bytes, p: ProposalInput, payload: Bytes, cpp: ChaincodeProposalPayload,
    action: ChaincodeAction, endorsers: seq<Signer>, signer: Signer)
    returns (resps: seq<ProposalResponse>, hash: Bytes)
    requires IsDigest(digest) && p.Valid() && Signable(p) && UnmarshalProposalPayload(payload) == Some(cpp)
    requires endorsers != [] && forall e <- endorsers :: NeverFails(e)
    requires NeverFails(signer) && signer.identity == Some(p.creator)
    ensures EndorsedAlike(digest, WithPayload(txid, p, payload), action, endorsers, resps)
    ensures SignedTx(WithPayload(txid, p, payload), signer, resps).Ok?
    ensures var envBytes := MarshalEnvelope(SignedTx(WithPayload(txid, p, payload), signer, resps).value);
            && CommitterHashes(digest, envBytes) ==
               Ok((hash, if cpp.input.Get() == [] then Err(NilArguments) else Ok(hash)))
            && GetActionFromEnvelope(envBytes) == if action.Blank() then Err(NoExtension) else Ok(action.Norm())
  {
    var proposal := WithPayload(txid, p, payload);
    MadeHeaderHashes(digest, txid, p, payload);
    resps := EndorsersAnswer(digest, proposal, action, endorsers);
    WithPayloadIsCreated(txid, p, payload);
    EndorseAssembleExtract(digest, proposal, action, endorsers, resps, signer);
    var made := MadeHeader(txid, p);
    var hdr, cpp';
    hdr, cpp', hash := CommitterRecomputesHash(digest, proposal, action, endorsers, resps, signer);
    assert hdr == made && cpp' == cpp;
  }

  /**
   The whole way of a proposal its creator makes: whoever endorses it, a transaction comes about, the
   committer recomputes the hash its endorsers signed, and its action can be extracted exactly when
   it is not blank.
   */
  lemma MadeProposalIsCommitted(
    digest: Digest, txid: Bytes, p: ProposalInput, action: ChaincodeAction, endorsers: seq<Signer>, signer: Signer)
    returns (resps: seq<ProposalResponse>, hash: Bytes)
    requires IsDigest(digest) && p.Valid() && Signable(p)
    requires endorsers != [] && forall e <- endorsers :: NeverFails(e)
    requires NeverFails(signer) && signer.identity == Some(p.creator)
    ensures EndorsedAlike(digest, CreateProposalWithTxID(txid, p), action, endorsers, resps)
    ensures SignedTx(CreateProposalWithTxID(txid, p), signer, resps).Ok?
    ensures var envBytes := MarshalEnvelope(SignedTx(CreateProposalWithTxID(txid, p), signer, resps).value);
            && CommitterHashes(digest, envBytes) == Ok((hash, Ok(hash)))
            && GetActionFromEnvelope(envBytes) == if action.Blank() then Err(NoExtension) else Ok(action.Norm())
  {
    var payload := MarshalProposalPayload(p.Payload(), p.order);
    MadePayload(txid, p);
    resps, hash := MadeHeaderIsCommitted(digest, txid, p, payload, p.Payload(), action, endorsers, signer);
  }

  /**
   A proposal that some other client puts together without an input, the empty payload included, is
   endorsed and assembled as well, but its hash cannot be recomputed.
   */
  lemma EmptyInputIsNotRecomputed(
    digest: Digest, txid: Bytes, p: ProposalInput, transientMap: map<Bytes, Bytes>, order: seq<Bytes>,
    action: ChaincodeAction, endorsers: seq<Signer>, signer: Signer)
    returns (resps: seq<ProposalResponse>, hash: Bytes)
    requires IsDigest(digest) && p.Valid() && Signable(p) && forall k :: k in order <==> k in transientMap
    requires endorsers != [] && forall e <- endorsers :: NeverFails(e)
    requires NeverFails(signer) && signer.identity == Some(p.creator)
    ensures var payload := MarshalProposalPayload(ChaincodeProposalPayload(Nil, transientMap), order);
            var proposal := WithPayload(txid, p, payload);
            && (transientMap == map[] ==> payload == [])
            && EndorsedAlike(digest, proposal, action, endorsers, resps)
            && SignedTx(proposal, signer, resps).Ok?
            && CommitterHashes(digest, MarshalEnvelope(SignedTx(proposal, signer, resps).value)) ==
               Ok((hash, Err(NilArguments)))
  {
    var cpp := ChaincodeProposalPayload(Nil, transientMap);
    ProposalPayloadRoundTrip(cpp, order);
    EncNonEmpty(ProposalPayloadFields(cpp, order));
    resps, hash := MadeHeaderIsCommitted(
      digest, txid, p, MarshalProposalPayload(cpp, order), cpp, action, endorsers, signer);
  }

  /** The committer reads the proposal's input from the transaction, and nothing of its transient map. */
  lemma TransientMapIsLeftOut(proposal: Proposal, signer: Signer, resps: seq<ProposalResponse>)
    returns (cpp: ChaincodeProposalPayload, cap: ChaincodeActionPayload)
    requires SignedTx(proposal, signer, resps).Ok?
    ensures UnmarshalProposalPayload(proposal.payload.Get()) == Some(cpp)
    ensures var found := OpenTx(MarshalEnvelope(SignedTx(proposal, signer, resps).value));
            found.Ok? && UnmarshalActionPayload(found.value.1.payload.Get()) == Some(cap)
    ensures UnmarshalProposalPayload(cap.chaincodeProposalPayload.Get()) ==
            Some(ChaincodeProposalPayload(cpp.input.Norm(), map[]))
  {
    cpp := UnmarshalProposalPayload(proposal.payload.Get()).value;
    OpenSignedTx(proposal, signer, resps, UnmarshalHeader(proposal.header.Get()).value, cpp);
    cap := ChaincodeActionPayload(Of(Stripped(cpp)).Norm(), Some(ChaincodeEndorsedAction(
      resps[0].payload.Norm(), NormEndorsements(Endorsements(resps)))));
    ProposalPayloadRoundTrip(ChaincodeProposalPayload(cpp.input, map[]), []);
  }

  lemma FailureAgrees(
    digest: Digest, proposal: Proposal, response: Response, results: Slice, events: Slice, name: Bytes,
    endorser: Signer, resp: ProposalResponse, failure: ProposalResponse)
    requires CreateProposalResponseFailure(digest, proposal, response, results, events, name) == Ok(failure)
    requires CreateProposalResponse(digest, proposal, Some(response), results, events,
                                    Some(ChaincodeID([], name, [])), endorser) == Ok(resp)
    ensures Successful(resp) && resp.payload == failure.payload
  {
  }

  lemma MadeProposalFails(
    digest: Digest, txid: Bytes, p: ProposalInput, response: Response, results: Slice, events: Slice, name: Bytes)
    returns (failure: ProposalResponse)
    requires p.Valid() && Signable(p)
    ensures CreateProposalResponseFailure(digest, CreateProposalWithTxID(txid, p), response, results, events, name) ==
            Ok(failure)
    ensures failure.version == 0 && failure.response == response && failure.endorsement == None
  {
    MadeProposalHashes(digest, txid, p);
    failure := CreateProposalResponseFailure(
                 digest, CreateProposalWithTxID(txid, p), response, results, events, name).value;
  }

  /** CreateProposalResponseFailure can agree with endorsers in everything and still spoil their transaction. */
  lemma AgreementWithoutEndorsementFails(
    digest: Digest, txid: Bytes, p: ProposalInput, response: Response, results: Slice, events: Slice, name: Bytes,
    endorsers: seq<Signer>, signer: Signer) returns (resps: seq<ProposalResponse>, failure: ProposalResponse)
    requires p.Valid() && Signable(p) && signer.identity == Some(p.creator)
    requires 200 <= response.status < 400 && forall e <- endorsers :: NeverFails(e)
    ensures CreateProposalResponseFailure(digest, CreateProposalWithTxID(txid, p), response, results, events, name) ==
            Ok(failure)
    ensures failure.version == 0 && failure.response == response && failure.endorsement == None
    ensures |resps| == |endorsers|
    ensures forall i | 0 <= i < |resps| ::
              CreateProposalResponse(digest, CreateProposalWithTxID(txid, p), Some(response), results, events,
                                     Some(ChaincodeID([], name, [])), endorsers[i]) == Ok(resps[i])
    ensures Agreeing(resps + [failure])
    ensures SignedTx(CreateProposalWithTxID(txid, p), signer, resps + [failure]) == Err(NilElement)
  {
    var proposal := CreateProposalWithTxID(txid, p);
    failure := MadeProposalFails(digest, txid, p, response, results, events, name);
    MadeProposalHashes(digest, txid, p);
    resps := EndorsersAnswer(
      digest, proposal, ChaincodeAction(results, events, Some(response), Some(ChaincodeID([], name, []))), endorsers);
    forall i | 0 <= i < |resps|
      ensures Successful(resps[i]) && resps[i].payload == failure.payload
    {
      FailureAgrees(digest, proposal, response, results, events, name, endorsers[i], resps[i], failure);
    }
    ProposalHeaderDecodes(txid, p);
    LastSpoils(proposal, signer, resps, failure);
  }

  lemma LastSpoils(proposal: Proposal, signer: Signer, resps: seq<ProposalResponse>, last: ProposalResponse)
    requires signer.identity.Some? && CreatedBy(proposal, signer.identity.value)
    requires Successful(last) && last.endorsement.None?
    requires forall i | 0 <= i < |resps| :: Successful(resps[i]) && resps[i].payload == last.payload
    ensures Agreeing(resps + [last])
    ensures SignedTx(proposal, signer, resps + [last]) == Err(NilElement)
  {
    assert last in resps + [last];
    MissingEndorsementIsRefused(proposal, signer, resps + [last]);
  }
}
