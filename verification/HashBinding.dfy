/** What the hash in a transaction binds: two made proposals have the same hash only if they are the same. */
module HashBinding {
  import opened Wrappers
  import opened Wire
  import opened Messages
  import opened TxUtils

  // ----- the three messages after one another -----

  function ChannelFields(txid: Bytes, p: ProposalInput): seq<Field> {
    ChannelHeaderHead(ChannelHeaderOf(txid, p), ChannelHeaderTail(ChannelHeaderOf(txid, p)))
  }

  function SignatureFields(p: ProposalInput): seq<Field> {
    PairFields(Pair(Of(p.creator), Of(p.nonce)))
  }

  function InputField(p: ProposalInput): Field {
    Field(1, Len(MarshalInvocationSpec(p.spec)))
  }

  /** Channel header, signature header and stripped payload of a made proposal. */
  function Hashed(txid: Bytes, p: ProposalInput): Bytes {
    Enc(ChannelFields(txid, p)) + Enc(SignatureFields(p)) + Enc([InputField(p)])
  }

  lemma HashedFields(txid: Bytes, p: ProposalInput)
    ensures Hashed(txid, p) == Enc(ChannelFields(txid, p) + (SignatureFields(p) + [InputField(p)]))
  {
    EncConcat(ChannelFields(txid, p), SignatureFields(p) + [InputField(p)]);
    EncConcat(SignatureFields(p), [InputField(p)]);
    ConcatAssoc(Enc(ChannelFields(txid, p)), Enc(SignatureFields(p)), Enc([InputField(p)]));
  }

  // ----- where one message ends and the next begins -----

  /** No field of a made channel header is a byte string with number 1 or 2; the other messages have no other fields. */
  predicate OfChannelHeader(f: Field) {
    f.num > 2 || !f.value.Len?
  }

  lemma ChannelFieldsAre(txid: Bytes, p: ProposalInput)
    ensures forall f <- ChannelFields(txid, p) :: OfChannelHeader(f)
  {
    var h := ChannelHeaderOf(txid, p);
    assert forall f <- ChannelHeaderEnd(h) :: OfChannelHeader(f);
    assert forall f <- ChannelHeaderTail(h) :: OfChannelHeader(f);
  }

  function Leading(fs: seq<Field>): nat {
    if fs == [] || !OfChannelHeader(fs[0]) then 0 else 1 + Leading(fs[1..])
  }

  lemma {:induction false} LeadingIs(a: seq<Field>, b: seq<Field>)
    requires (forall f <- a :: OfChannelHeader(f)) && b != [] && !OfChannelHeader(b[0])
    ensures Leading(a + b) == |a|
  {
    if a == [] {
      assert a + b == b;
    } else {
      LeadingIs(a[1..], b);
      assert (a + b)[1..] == a[1..] + b;
    }
  }

  lemma SameFields(txid: Bytes, p: ProposalInput, txid': Bytes, p': ProposalInput)
    requires Hashed(txid, p) == Hashed(txid', p')
    ensures ChannelFields(txid, p) == ChannelFields(txid', p')
    ensures SignatureFields(p) == SignatureFields(p') && InputField(p) == InputField(p')
  {
    HashedFields(txid, p);
    HashedFields(txid', p');
    var rest, rest' := SignatureFields(p) + [InputField(p)], SignatureFields(p') + [InputField(p')];
    EncInjective(ChannelFields(txid, p) + rest, ChannelFields(txid', p') + rest');
    ChannelFieldsAre(txid, p);
    ChannelFieldsAre(txid', p');
    LeadingIs(ChannelFields(txid, p), rest);
    LeadingIs(ChannelFields(txid', p'), rest');
    AppendInjective(ChannelFields(txid, p), rest, ChannelFields(txid', p'), rest');
    assert |rest| == |SignatureFields(p)| + 1 && |rest'| == |SignatureFields(p')| + 1;
    AppendInjective(SignatureFields(p), [InputField(p)], SignatureFields(p'), [InputField(p')]);
  }

  /** All of a proposal but its transient map. */
  ghost predicate SameProposal(txid: Bytes, p: ProposalInput, txid': Bytes, p': ProposalInput) {
    && txid == txid' && p.typ == p'.typ && p.chainId == p'.chainId && p.time == p'.time
    && p.spec == p'.spec && p.nonce == p'.nonce && p.creator == p'.creator
  }

  lemma HashedIdentifies(txid: Bytes, p: ProposalInput, txid': Bytes, p': ProposalInput)
    ensures Hashed(txid, p) == Hashed(txid', p') <==> SameProposal(txid, p, txid', p')
  {
    if Hashed(txid, p) == Hashed(txid', p') {
      SameFields(txid, p, txid', p');
      ChannelHeaderRoundTrip(ChannelHeaderOf(txid, p));
      ChannelHeaderRoundTrip(ChannelHeaderOf(txid', p'));
      PairFold(Pair(Of(p.creator), Of(p.nonce)));
      PairFold(Pair(Of(p'.creator), Of(p'.nonce)));
      InvocationSpecRoundTrip(p.spec);
      InvocationSpecRoundTrip(p'.spec);
    }
  }

  // ----- the hash -----

  function MadeHash(digest: Digest, txid: Bytes, p: ProposalInput): Result<Bytes, Error>
    requires forall k <- p.order :: k in p.transientMap
  {
    var proposal := CreateProposalWithTxID(txid, p);
    ProposalHash1(digest, UnmarshalHeader(proposal.header.Get()), proposal.payload)
  }

  lemma StrippedIsInput(p: ProposalInput)
    ensures Stripped(p.Payload()) == Enc([InputField(p)])
  {
    assert BytesField(1, MarshalInvocationSpec(p.spec)) + [] == [InputField(p)];
  }

  lemma MadeHashIs(digest: Digest, txid: Bytes, p: ProposalInput)
    requires p.Valid()
    ensures MadeHash(digest, txid, p) == if Signable(p) then Ok(digest(Hashed(txid, p))) else Err(NilArguments)
  {
    var _ := MadeHeader(txid, p);
    HeaderRoundTrip(MadeHeaderOf(txid, p));
    MadePayload(txid, p);
    StrippedIsInput(p);
  }

  /**
   Two made proposals have the same hash exactly when they agree in everything but the transient map:
   type, channel, id, time, chaincode, input, nonce and creator.
   */
  lemma HashIdentifiesProposal(digest: Digest, txid: Bytes, p: ProposalInput, txid': Bytes, p': ProposalInput)
    requires p.Valid() && p'.Valid() && Signable(p) && Signable(p')
    requires NoCollision(digest, Hashed(txid, p), Hashed(txid', p'))
    ensures MadeHash(digest, txid, p) == MadeHash(digest, txid', p') <==> SameProposal(txid, p, txid', p')
  {
    MadeHashIs(digest, txid, p);
    MadeHashIs(digest, txid', p');
    HashedIdentifies(txid, p, txid', p');
  }

  lemma CommitterFindsMadeHash(
    digest: Digest, txid: Bytes, p: ProposalInput, action: ChaincodeAction, endorsers: seq<Signer>,
    resps: seq<ProposalResponse>, signer: Signer)
    requires IsDigest(digest) && p.Valid() && NeverFails(signer) && signer.identity == Some(p.creator)
    requires EndorsedAlike(digest, CreateProposalWithTxID(txid, p), action, endorsers, resps)
    ensures SignedTx(CreateProposalWithTxID(txid, p), signer, resps).Ok?
    ensures var env := SignedTx(CreateProposalWithTxID(txid, p), signer, resps).value;
            var found := CommitterHashes(digest, MarshalEnvelope(env));
            found.Ok? && Ok(found.value.0) == MadeHash(digest, txid, p)
  {
    ProposalHeaderDecodes(txid, p);
    var _, _, _ := CommitterRecomputesHash(
      digest, CreateProposalWithTxID(txid, p), action, endorsers, resps, signer);
  }

  /** The hashes a committer finds in two transactions are equal only if these come from the same proposal. */
  lemma CommittedHashesTellApart(
    digest: Digest,
    txid: Bytes, p: ProposalInput, action: ChaincodeAction, endorsers: seq<Signer>,
    resps: seq<ProposalResponse>, signer: Signer,
    txid': Bytes, p': ProposalInput, action': ChaincodeAction, endorsers': seq<Signer>,
    resps': seq<ProposalResponse>, signer': Signer)
    requires IsDigest(digest) && NoCollision(digest, Hashed(txid, p), Hashed(txid', p'))
    requires p.Valid() && NeverFails(signer) && signer.identity == Some(p.creator)
    requires p'.Valid() && NeverFails(signer') && signer'.identity == Some(p'.creator)
    requires EndorsedAlike(digest, CreateProposalWithTxID(txid, p), action, endorsers, resps)
    requires EndorsedAlike(digest, CreateProposalWithTxID(txid', p'), action', endorsers', resps')
    ensures var tx := SignedTx(CreateProposalWithTxID(txid, p), signer, resps);
            var tx' := SignedTx(CreateProposalWithTxID(txid', p'), signer', resps');
            && tx.Ok? && tx'.Ok?
            && var found := CommitterHashes(digest, MarshalEnvelope(tx.value));
            && var found' := CommitterHashes(digest, MarshalEnvelope(tx'.value));
            && found.Ok? && found'.Ok?
            && (found.value.0 == found'.value.0 <==> SameProposal(txid, p, txid', p'))
  {
    CommitterFindsMadeHash(digest, txid, p, action, endorsers, resps, signer);
    CommitterFindsMadeHash(digest, txid', p', action', endorsers', resps', signer');
    MadeHashIs(digest, txid, p);
    MadeHashIs(digest, txid', p');
    HashedIdentifies(txid, p, txid', p');
  }
}
