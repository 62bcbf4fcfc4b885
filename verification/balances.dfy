/** `check_balances`: report every wallet's balance and the total held. */
module Balances {
  import opened ChainClient

  /** One console line of the report: a skipped empty wallet, or a wallet and its balance. */
  datatype BalanceLine = ZeroBalance(address: string) | Funded(address: string, amount: nat)

  datatype BalanceReport = BalanceReport(lines: seq<BalanceLine>, total: nat)

  /** Sum of a sequence of amounts. */
  function Sum(xs: seq<nat>): nat
  {
    if |xs| == 0 then 0 else Sum(xs[..|xs| - 1]) + xs[|xs| - 1]
  }

  /** The non-zero amounts, in order. */
  function NonZero(xs: seq<nat>): (ys: seq<nat>)
    ensures |ys| <= |xs|
    ensures forall j :: 0 <= j < |ys| ==> ys[j] > 0
  {
    if |xs| == 0 then []
    else NonZero(xs[..|xs| - 1]) + (if xs[|xs| - 1] == 0 then [] else [xs[|xs| - 1]])
  }

  /** The balances of the wallets, in file order. */
  function BalancesOf(node: Node, keys: seq<string>): (bs: seq<nat>)
    ensures |bs| == |keys|
  {
    seq(|keys|, i requires 0 <= i < |keys| => BalanceOfKey(node, i, keys[i]))
  }

  /** The amounts shown on the `Funded` lines of a report, in order. */
  function Amounts(lines: seq<BalanceLine>): seq<nat>
  {
    if |lines| == 0 then []
    else
      var last := lines[|lines| - 1];
      Amounts(lines[..|lines| - 1]) + (if last.Funded? then [last.amount] else [])
  }

  /** The report line for the wallet at file position `i`: the zero branch skips it, any
      other balance is shown. */
  function LineFor(node: Node, i: nat, key: string): (line: BalanceLine)
    ensures line.address == node.addressOf(key)
    ensures line.ZeroBalance? <==> BalanceOfKey(node, i, key) == 0
    ensures line.Funded? ==> line.amount == BalanceOfKey(node, i, key) && line.amount > 0
  {
    var address := node.addressOf(key);
    var balance := node.balanceAt(i, address);
    if balance == 0 then ZeroBalance(address) else Funded(address, balance)
  }

  /** `check_balances`: one line per wallet in file order, and the total of the non-zero balances. */
  method CheckBalances(node: Node, keys: seq<string>) returns (report: BalanceReport)
    ensures |report.lines| == |keys|
    ensures forall i :: 0 <= i < |keys| ==> report.lines[i] == LineFor(node, i, keys[i])
    ensures report.total == Sum(NonZero(BalancesOf(node, keys)))
    ensures report.total == Sum(Amounts(report.lines))
    ensures report.total == Sum(BalancesOf(node, keys))
  {
    var bs := BalancesOf(node, keys);
    var lines: seq<BalanceLine> := [];
    var total: nat := 0;
    var i := 0;
    while i < |keys|
      invariant 0 <= i <= |keys|
      invariant |lines| == i
      invariant forall k :: 0 <= k < i ==> lines[k] == LineFor(node, k, keys[k])
      invariant total == Sum(bs[..i])
      invariant total == Sum(Amounts(lines))
    {
      var line := LineFor(node, i, keys[i]);
      var total' := total + if line.Funded? then line.amount else 0;
      assert total' == Sum(bs[..i + 1]) by {
        assert bs[..i + 1][..i] == bs[..i];
        assert bs[i] == BalanceOfKey(node, i, keys[i]);
      }
      assert total' == Sum(Amounts(lines + [line])) by {
        AmountsStep(lines, line);
      }
      assert forall k :: 0 <= k < i + 1 ==> (lines + [line])[k] == LineFor(node, k, keys[k]);
      total := total';
      lines := lines + [line];
      i := i + 1;
    }
    assert total == Sum(bs) by {
      assert bs[..i] == bs;
    }
    assert total == Sum(NonZero(bs)) by {
      SkippingZeroesKeepsSum(bs);
    }
    report := BalanceReport(lines, total);
  }

  /** One more report line raises the sum of the shown amounts by its amount, if it shows one. */
  lemma AmountsStep(lines: seq<BalanceLine>, line: BalanceLine)
    ensures Sum(Amounts(lines + [line])) == Sum(Amounts(lines)) + (if line.Funded? then line.amount else 0)
  {
    var next := if line.Funded? then [line.amount] else [];
    assert (lines + [line])[..|lines|] == lines;
    assert Amounts(lines + [line]) == Amounts(lines) + next;
    SumAppend(Amounts(lines), next);
    assert Sum(next) == (if line.Funded? then line.amount else 0) by {
      if line.Funded? {
        assert next[..0] == [];
      }
    }
  }

  lemma {:induction false} SumAppend(xs: seq<nat>, ys: seq<nat>)
    ensures Sum(xs + ys) == Sum(xs) + Sum(ys)
    decreases |ys|
  {
    if |ys| == 0 {
      assert xs + ys == xs;
    } else {
      var ys' := ys[..|ys| - 1];
      assert (xs + ys)[..|xs + ys| - 1] == xs + ys';
      SumAppend(xs, ys');
    }
  }

  /** A zero balance adds nothing: the total of the non-zero balances is the total of all of them. */
  lemma {:induction false} SkippingZeroesKeepsSum(xs: seq<nat>)
    ensures Sum(NonZero(xs)) == Sum(xs)
    decreases |xs|
  {
    if |xs| > 0 {
      var init := xs[..|xs| - 1];
      var last := xs[|xs| - 1];
      SkippingZeroesKeepsSum(init);
      SumAppend(NonZero(init), if last == 0 then [] else [last]);
      if last == 0 {
        assert Sum([]) == 0;
      } else {
        assert Sum([last]) == last by {
          assert [last][..0] == [];
        }
      }
    }
  }
}
