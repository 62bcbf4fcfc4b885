/** `transfer_funds`: drain every wallet, less the fee, to one destination address. */
module FundSweep {
  import opened ChainClient

  /** The gas limit of every sweep transaction; the program never estimates gas. */
  const GasLimit: nat := 2100000

  /** The fee a wallet must cover at the given gas price. */
  function GasCost(gasPrice: nat): nat
  {
    gasPrice * GasLimit
  }

  /** What the loop body does with one wallet. */
  datatype Decision = SkipZero | SkipFee | Send(value: nat)

  /** The per-wallet decision: skip an empty wallet, skip one that cannot pay the fee,
      otherwise send everything but the fee. */
  function Decide(balance: nat, gasPrice: nat): (d: Decision)
    ensures d == SkipZero <==> balance == 0
    ensures d == SkipFee <==> 0 < balance <= GasCost(gasPrice)
    ensures d.Send? <==> balance > GasCost(gasPrice)
    ensures d.Send? ==> d.value > 0 && d.value + GasCost(gasPrice) == balance
  {
    if balance == 0 then SkipZero
    else
      var gasCost := GasCost(gasPrice);
      if balance <= gasCost then SkipFee else Send(balance - gasCost)
  }

  /** The transaction dictionary built before signing. */
  datatype Tx = Tx(from: string, to: string, value: nat, gas: nat, gasPrice: nat, nonce: nat)

  /** What happened to one wallet: the two skip messages, or a transaction sent. */
  datatype WalletOutcome =
    | ZeroBalance(address: string)
    | CannotCoverFee(address: string)
    | Sent(tx: Tx)

  /** The sweep either rejects the destination before touching any wallet, or processes all of them. */
  datatype SweepResult = InvalidAddress | Processed(outcomes: seq<WalletOutcome>)

  /** What a correct sweep does with the wallet at file position `i`. */
  predicate SweptCorrectly(node: Node, destination: string, key: string, i: nat, outcome: WalletOutcome)
  {
    var address := node.addressOf(key);
    var balance := node.balanceAt(i, address);
    var gasPrice := node.gasPriceAt(i);
    && (outcome.ZeroBalance? <==> balance == 0)
    && (outcome.CannotCoverFee? <==> 0 < balance <= GasCost(gasPrice))
    && (outcome.Sent? <==> balance > GasCost(gasPrice))
    && (!outcome.Sent? ==> outcome.address == address)
    && (outcome.Sent? ==>
          && outcome.tx.from == address
          && outcome.tx.to == destination
          && outcome.tx.gas == GasLimit
          && outcome.tx.gasPrice == gasPrice
          && outcome.tx.nonce == node.nonceAt(i, address)
          && outcome.tx.value > 0
          && outcome.tx.value + outcome.tx.gasPrice * outcome.tx.gas == balance)
  }

  /** `transfer_funds`: reject an invalid destination up front, otherwise one outcome per wallet in file order. */
  method TransferFunds(node: Node, keys: seq<string>, destination: string) returns (r: SweepResult)
    ensures !node.isAddress(destination) <==> r == InvalidAddress
    ensures r.Processed? ==> |r.outcomes| == |keys|
    ensures r.Processed? ==>
              forall i :: 0 <= i < |keys| ==> SweptCorrectly(node, destination, keys[i], i, r.outcomes[i])
  {
    if !node.isAddress(destination) {
      return InvalidAddress;
    }
    var outcomes: seq<WalletOutcome> := [];
    var i := 0;
    while i < |keys|
      invariant 0 <= i <= |keys|
      invariant |outcomes| == i
      invariant forall k :: 0 <= k < i ==> SweptCorrectly(node, destination, keys[k], k, outcomes[k])
    {
      var address := node.addressOf(keys[i]);
      var balance := node.balanceAt(i, address);
      var gasPrice := node.gasPriceAt(i);
      var outcome;
      match Decide(balance, gasPrice) {
        case SkipZero =>
          outcome := ZeroBalance(address);
        case SkipFee =>
          outcome := CannotCoverFee(address);
        case Send(value) =>
          outcome := Sent(Tx(address, destination, value, GasLimit, gasPrice, node.nonceAt(i, address)));
      }
      assert SweptCorrectly(node, destination, keys[i], i, outcome);
      outcomes := outcomes + [outcome];
      i := i + 1;
    }
    r := Processed(outcomes);
  }

  /** The transactions broadcast, in the order they were sent. */
  function Transactions(outcomes: seq<WalletOutcome>): (txs: seq<Tx>)
    ensures |txs| <= |outcomes|
  {
    if |outcomes| == 0 then []
    else
      var last := outcomes[|outcomes| - 1];
      Transactions(outcomes[..|outcomes| - 1]) + (if last.Sent? then [last.tx] else [])
  }

  /** Every transaction the sweep sent. */
  function Broadcast(r: SweepResult): seq<Tx>
  {
    if r.InvalidAddress? then [] else Transactions(r.outcomes)
  }

  /** Transactions keep the order of the wallets they come from. */
  lemma {:induction false} TransactionsConcat(a: seq<WalletOutcome>, b: seq<WalletOutcome>)
    ensures Transactions(a + b) == Transactions(a) + Transactions(b)
    decreases |b|
  {
    if |b| == 0 {
      assert a + b == a;
    } else {
      var b' := b[..|b| - 1];
      assert (a + b)[..|a + b| - 1] == a + b';
      assert (a + b)[|a + b| - 1] == b[|b| - 1];
      TransactionsConcat(a, b');
    }
  }

  /** Every transaction comes from some wallet's `Sent` outcome. */
  lemma {:induction false} TransactionsComeFromWallets(outcomes: seq<WalletOutcome>, t: Tx)
    requires t in Transactions(outcomes)
    ensures exists i :: 0 <= i < |outcomes| && outcomes[i] == Sent(t)
    decreases |outcomes|
  {
    var init := outcomes[..|outcomes| - 1];
    var last := outcomes[|outcomes| - 1];
    if t in Transactions(init) {
      TransactionsComeFromWallets(init, t);
      var i :| 0 <= i < |init| && init[i] == Sent(t);
      assert outcomes[i] == Sent(t);
    } else {
      assert last == Sent(t);
    }
  }

  /** Every `Sent` outcome's transaction is among the transactions broadcast. */
  lemma {:induction false} SentIsBroadcast(outcomes: seq<WalletOutcome>, i: nat)
    requires i < |outcomes| && outcomes[i].Sent?
    ensures outcomes[i].tx in Transactions(outcomes)
    decreases |outcomes|
  {
    var init := outcomes[..|outcomes| - 1];
    if i < |init| {
      assert init[i] == outcomes[i];
      SentIsBroadcast(init, i);
    }
  }

  /** What `TransferFunds` promises, as one predicate over its result. */
  predicate SweepCorrect(node: Node, keys: seq<string>, destination: string, r: SweepResult)
  {
    && (!node.isAddress(destination) <==> r == InvalidAddress)
    && (r.Processed? ==> |r.outcomes| == |keys|)
    && (r.Processed? ==>
          forall i :: 0 <= i < |keys| ==> SweptCorrectly(node, destination, keys[i], i, r.outcomes[i]))
  }

  /** A sweep sends nothing to an invalid destination and at most one transaction per wallet;
      each transaction drains one wallet exactly: value plus fee is that wallet's balance, with a
      positive value, the fixed gas limit and the chosen destination. Conversely, to a valid
      destination, every wallet whose balance exceeds its fee has its transaction broadcast. */
  lemma SweepSendsExactly(node: Node, keys: seq<string>, destination: string, r: SweepResult)
    requires SweepCorrect(node, keys, destination, r)
    ensures !node.isAddress(destination) ==> Broadcast(r) == []
    ensures |Broadcast(r)| <= |keys|
    ensures forall t :: t in Broadcast(r) ==> t.value > 0 && t.gas == GasLimit && t.to == destination
    ensures forall t :: t in Broadcast(r) ==>
              exists i :: 0 <= i < |keys| && t.from == node.addressOf(keys[i])
                          && t.value + t.gasPrice * GasLimit == BalanceOfKey(node, i, keys[i])
    ensures node.isAddress(destination) ==>
              forall i :: 0 <= i < |keys| && BalanceOfKey(node, i, keys[i]) > GasCost(node.gasPriceAt(i)) ==>
                r.outcomes[i].Sent? && r.outcomes[i].tx in Broadcast(r)
  {
    forall t | t in Broadcast(r)
      ensures t.value > 0 && t.gas == GasLimit && t.to == destination
      ensures exists i :: 0 <= i < |keys| && t.from == node.addressOf(keys[i])
                          && t.value + t.gasPrice * GasLimit == BalanceOfKey(node, i, keys[i])
    {
      TransactionsComeFromWallets(r.outcomes, t);
      var i :| 0 <= i < |r.outcomes| && r.outcomes[i] == Sent(t);
      assert SweptCorrectly(node, destination, keys[i], i, r.outcomes[i]);
    }
    if node.isAddress(destination) {
      forall i | 0 <= i < |keys| && BalanceOfKey(node, i, keys[i]) > GasCost(node.gasPriceAt(i))
        ensures r.outcomes[i].Sent? && r.outcomes[i].tx in Broadcast(r)
      {
        assert SweptCorrectly(node, destination, keys[i], i, r.outcomes[i]);
        SentIsBroadcast(r.outcomes, i);
      }
    }
  }
}
