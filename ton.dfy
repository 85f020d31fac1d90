/** The ledger values the scanner handles, with the field widths of the
    TON client library and of the stored checkpoint row. */
module Ton {
  import opened Base

  /** `ton.BlockIDExt`: a block's coordinates and its two hashes. */
  datatype BlockIdExt = BlockIdExt(
    workchain: Int32,
    shard: Int64,
    seqNo: Uint32,
    rootHash: seq<bv8>,
    fileHash: seq<bv8>)

  /** `storage.Block`: the checkpoint row, and the scanner's position. */
  datatype Block = Block(workchain: Int32, shard: Int64, seqNo: Uint32)

  /** The position of a block, without its hashes. */
  function PositionOf(b: BlockIdExt): Block {
    Block(b.workchain, b.shard, b.seqNo)
  }

  /** The text by which the scanner recognises the node's "not in the
      database" errors (pruned or not yet available data). */
  const NotInDb: string := "is not in db"

  type Address = seq<bv8>

  /** `ton.TransactionShortInfo`: one entry of a block's transaction list. */
  datatype TxShort = TxShort(account: seq<bv8>, lt: Uint64)

  /** `ton.TransactionID3`: the paging cursor. */
  datatype TxId3 = TxId3(account: seq<bv8>, lt: Uint64)

  function Id3(t: TxShort): TxId3 {
    TxId3(t.account, t.lt)
  }

  datatype MsgKind = Internal | ExternalIn | ExternalOut

  /** The forward payload of a jetton notification, read as the TON library
      reads it: `op` is None when fewer than 32 bits remain, `comment` is
      what `LoadStringSnake` yields on the bits after the op. */
  datatype Payload = Payload(op: Option<Uint32>, comment: Result<string>)

  /** The fields of the jetton-notify layout that the scanner reads. */
  datatype JettonNotify = JettonNotify(amount: nat, sender: Address, fwdPayload: Option<Payload>)

  /** A message body cell, known by what parsing it against the
      jetton-notify layout yields (None when `LoadFromCell` fails). */
  datatype Body = Body(asNotify: Option<JettonNotify>)

  /** The inbound message of a transaction. */
  datatype Message = Message(kind: MsgKind, body: Option<Body>, dst: Address)

  /** `tlb.Transaction`, reduced to what the scanner looks at. */
  datatype Tx = Tx(account: seq<bv8>, lt: Uint64, inMsg: Message)

  /** A decoded jetton transfer notification with a text comment. */
  datatype Notification = Notification(amount: nat, sender: Address, dst: Address, comment: string)
}
