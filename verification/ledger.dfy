/** Shared vocabulary of the momentum tracker: addresses, transactions, the
    result of fetching one block, and the address normaliser.

    The ledger client (`w3`) is not modelled as an object.  Its two services
    that the scan depends on become plain values:
    - the address normaliser (`to_checksum_address`) is an arbitrary function
      from raw strings to an optional canonical address, `None` standing for
      the `ValueError` it raises on malformed input;
    - a block fetch either yields the block's transactions or fails. */
module Ledger {

  datatype Option<+T> = None | Some(value: T)

  /** A canonical (checksummed) address.  Two addresses are equal iff their
      canonical strings are equal. */
  type Addr = string

  /** The address normaliser; `None` means the raw string was rejected. */
  type Normalizer = string -> Option<Addr>

  /** A transaction as the scan sees it: the raw sender, and the raw
      recipient, which is absent for contract creation. */
  datatype Tx = Tx(from: string, to: Option<string>)

  /** What asking the ledger for one block produced. */
  datatype BlockResult = Fetched(txs: seq<Tx>) | Failed

  /** The truth test the scan applies to a transaction's recipient field:
      an absent recipient and an empty string are both false. */
  predicate HasRecipient(tx: Tx)
  {
    tx.to.Some? && tx.to.value != ""
  }
}
