/**
  Machine integers, hashes, accounts, keys and the closed set of actions a
  receipt may carry, together with the three host errors the receipt manager
  raises.
 */
module Primitives {
  import opened Wrappers

  type u8 = x: int | 0 <= x < 0x100
  type u64 = x: int | 0 <= x < 0x1_0000_0000_0000_0000
  type u128 = x: int | 0 <= x < 0x1_0000_0000_0000_0000_0000_0000_0000_0000

  type Gas = u64
  type Balance = u128
  type Nonce = u64

  /** An opaque 32-byte content identifier. */
  type CryptoHash = s: seq<u8> | |s| == 32 witness seq(32, _ => 0)

  /** `CryptoHash::default()`: thirty-two zero bytes. */
  const DefaultHash: CryptoHash :=
    [0, 0, 0, 0, 0, 0, 0, 0, 0, 0, 0, 0, 0, 0, 0, 0, 0, 0, 0, 0, 0, 0, 0, 0, 0, 0, 0, 0, 0, 0, 0, 0]

  /** Account identifiers; their validity grammar is enforced elsewhere. */
  type AccountId = string

  datatype KeyType = ED25519 | SECP256K1

  /** A decoded public key. The receipt manager never looks inside one. */
  datatype PublicKey = PublicKey(keyType: KeyType, data: seq<u8>)

  /** The partial decoder from raw bytes to a public key, supplied by the caller. */
  type KeyDecoder = seq<u8> -> Option<PublicKey>

  datatype FunctionCallPermission = FunctionCallPermission(
    allowance: Option<Balance>,
    receiverId: AccountId,
    methodNames: seq<seq<u8>>)

  /** `AccessKeyPermission::FunctionCall` is `FunctionCallAccess` here, apart from the action of that name. */
  datatype AccessKeyPermission = FullAccess | FunctionCallAccess(permission: FunctionCallPermission)

  datatype AccessKey = AccessKey(nonce: Nonce, permission: AccessKeyPermission)

  /**
    One operation a receipt performs. Method names are kept as the bytes of
    the Rust `String` they were validated into.
   */
  datatype Action =
    | CreateAccount
    | DeployContract(code: seq<u8>)
    | FunctionCall(methodName: seq<u8>, args: seq<u8>, gas: Gas, deposit: Balance)
    | Transfer(deposit: Balance)
    | Stake(stake: Balance, publicKey: PublicKey)
    | AddKey(publicKey: PublicKey, accessKey: AccessKey)
    | DeleteKey(publicKey: PublicKey)
    | DeleteAccount(beneficiaryId: AccountId)

  /** Route the data identified by `dataId` to the receipt addressed to `receiverId`. */
  datatype DataReceiver = DataReceiver(dataId: CryptoHash, receiverId: AccountId)

  /** The host errors this component raises. */
  datatype HostError =
    | InvalidReceiptIndex(receiptIndex: u64)
    | InvalidMethodName
    | InvalidPublicKey
}
