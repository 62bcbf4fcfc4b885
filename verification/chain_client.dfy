/**
 The answers the program obtains from the node and from the key library
 through `web3`. None of them is computed here: each is an input of the model.

 The program asks the node again for every wallet it processes, and the chain
 may move on in between (a transaction just broadcast is pending, a block is
 mined). So the answers that come from the node are indexed by the file
 position of the wallet being processed: two lines holding the same key may get
 different balances, gas prices and nonces.
 */
module ChainClient {

  datatype Node = Node(
    /** `account.from_key(pk).address`: key derivation, done by the key library. */
    addressOf: string -> string,
    /** `eth.get_balance(address)` in wei, as read while the wallet at this file position is processed. */
    balanceAt: (nat, string) -> nat,
    /** `eth.gas_price` as read while the wallet at this file position is processed. */
    gasPriceAt: nat -> nat,
    /** `eth.get_transaction_count(address, 'pending')` as read while the wallet at this file position is processed. */
    nonceAt: (nat, string) -> nat,
    /** `web3.is_address(text)`. */
    isAddress: string -> bool)

  /** The balance the node reports for the wallet holding `key` at file position `i`. */
  function BalanceOfKey(node: Node, i: nat, key: string): nat
  {
    node.balanceAt(i, node.addressOf(key))
  }
}
