/** What travels between chains. Byte encodings and hashes are injective, so a body is
    represented by the value it decodes to and a commitment by the request it hashes. */
module Messages {
  import opened Balances

  datatype Chain = Evm(id: nat) | Substrate(id: nat)

  type Byte = b: nat | b < 256

  /** A module id: a contract address as a number, a pallet id, or any other bytes. */
  datatype Endpoint = H160(address: nat) | PalletModule(name: string) | RawBytes(bytes: seq<Byte>)

  /** Address bytes inside a message, told apart by their length. */
  datatype Address = Bytes32(account: AccountId) | Bytes20(evm: nat) | BadLength(length: nat)

  datatype OrderIntent = OrderIntent(
    schemaVersion: nat, buyerEvm: nat, productId: nat, quantity: nat, referrer: Option<nat>)

  datatype WithdrawRequest = WithdrawRequest(
    schemaVersion: nat, ownerEvm: nat, amount: nat, recipient: nat)

  /** The `data` bytes of a message. `Garbled` is non-empty and decodes to nothing. */
  datatype Payload =
    | Empty
    | Order(intent: OrderIntent)
    | Withdraw(req: WithdrawRequest)
    | Garbled(tag: nat)

  datatype Message = Message(from: Address, to: Address, amount: nat, data: Payload)

  datatype Body = Encoded(message: Message) | Undecodable(tag: nat)

  datatype PostRequest = PostRequest(
    source: Chain, dest: Chain, nonce: nat, from: Endpoint, to: Endpoint, timeout: nat, body: Body)

  datatype Request = Post(post: PostRequest) | Get(nonce: nat, tag: nat)

  type Commitment = Request

  function NonceOf(k: Commitment): nat {
    match k
    case Post(post) => post.nonce
    case Get(nonce, _) => nonce
  }

  const HOST_CHAIN: Chain := Substrate(0)
}
