/** Values shared by every module: identifiers, addresses, transactions. */
module Types {
  const U64_MAX: nat := 0xFFFF_FFFF_FFFF_FFFF

  /** Rust's u64. */
  type u64 = x: nat | x <= U64_MAX

  type byte = bv8

  /** A 32-byte hash or public key, read as one big-endian number. */
  datatype TransactionId = Hash(value: nat)
  datatype Address = Key(value: nat)
  type BlockId = TransactionId

  /** The all-zero id: the parent of a root, never the id of a stored transaction. */
  const GENESIS: TransactionId := Hash(0)

  const FEE_BURN_ADDRESS: Address :=
    Key(0xFFFFFFFFFFFFFFFFFFFFFFFFFFFFFFFFFFFFFFFFFFFFFFFFFFFFFFFFFFFFFFFF)

  const FAUCET_ADDRESS: Address :=
    Key(0x5579ae9096f1ae55bfd6fd88155fad09c59ab8ccb61c8a297b5d1027ea4ca916)

  const FOUNDER_ADDRESS: Address :=
    Key(0x3d17ace653283dbd9aeba6e0d4684795a800e9da952cb682bb67cd970cbe1b3e)

  /** The two parent links of a transaction. */
  datatype Parents = Parents(first: TransactionId, second: TransactionId)

  datatype Transaction = Transaction(
    id: TransactionId,
    parents: Parents,
    sender: Address,
    receiver: Address,
    amount: u64,
    fee: u64,
    timestamp: u64,
    nonce: u64,
    accountNonce: u64,
    weight: real,
    signature: seq<byte>,
    publicKey: seq<byte>)

  /** The stored transactions of a DAG. */
  type Transactions = map<TransactionId, Transaction>

  datatype Option<+T> = None | Some(value: T)

  datatype Result<+T, +E> = Ok(value: T) | Err(error: E)

  datatype Unit = Unit

  /** The last key/value a map holds for `k`, or `d`. */
  function GetOr<K, V>(m: map<K, V>, k: K, d: V): V {
    if k in m then m[k] else d
  }
}
