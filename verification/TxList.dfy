/** The submitted transactions that await their block: a sync.Map shared by InvokeCC and updateBlock. */
module TxList {
  import opened Wrappers
  import opened Wire

  type TxId = Bytes

  datatype PeerTx = PeerTx(peerName: string, peerType: int)

  class SyncMap {
    var entries: map<TxId, PeerTx>

    constructor ()
      ensures entries == map[]
    {
      entries := map[];
    }

    method Store(id: TxId, tx: PeerTx)
      modifies this
      ensures entries == old(entries)[id := tx]
    {
      entries := entries[id := tx];
    }

    method Load(id: TxId) returns (tx: Option<PeerTx>)
      ensures tx == if id in entries then Some(entries[id]) else None
    {
      tx := if id in entries then Some(entries[id]) else None;
    }

    method Delete(id: TxId)
      modifies this
      ensures entries == old(entries) - {id}
    {
      entries := entries - {id};
    }
  }
}
