/** `generate_wallets`: create `count` new wallets, show each one and save it to the store. */
module Generation {
  import opened WalletFile

  /** What the key library hands back for one new wallet: its address, its
      recovery phrase and its private key (as hex text). */
  datatype Account = Account(address: string, mnemonic: string, key: string)

  /** How many times `range(count)` runs its body: never for a count of zero or less. */
  function Iterations(count: int): nat
  {
    if count <= 0 then 0 else count
  }

  /** The file after `save_wallet` has been applied to each account in turn. */
  function SaveAll(file: string, accounts: seq<Account>): (file': string)
    ensures |file'| >= |file| && file'[..|file|] == file
    ensures |accounts| > 0 ==> |file'| > |file|
  {
    if |accounts| == 0 then file
    else
      var last := accounts[|accounts| - 1];
      Append(SaveAll(file, accounts[..|accounts| - 1]), last.key, last.address)
  }

  /** Saving two batches one after the other is saving them together, in order. */
  lemma {:induction false} SaveAllConcat(file: string, a: seq<Account>, b: seq<Account>)
    ensures SaveAll(SaveAll(file, a), b) == SaveAll(file, a + b)
    decreases |b|
  {
    if |b| == 0 {
      assert a + b == a;
    } else {
      var b' := b[..|b| - 1];
      SaveAllConcat(file, a, b');
      assert (a + b)[..|a + b| - 1] == a + b';
      assert (a + b)[|a + b| - 1] == b[|b| - 1];
    }
  }

  /** The private keys of the accounts, in order. */
  function KeysOf(accounts: seq<Account>): seq<string>
  {
    seq(|accounts|, i requires 0 <= i < |accounts| => accounts[i].key)
  }

  predicate AllWellFormed(accounts: seq<Account>)
  {
    forall i :: 0 <= i < |accounts| ==> WellFormed(accounts[i].key, accounts[i].address)
  }

  /** Saving well-formed accounts adds exactly their keys, in order, after the keys already stored. */
  lemma {:induction false} SaveAllRoundTrip(file: string, accounts: seq<Account>)
    requires AllWellFormed(accounts)
    ensures Parse(SaveAll(file, accounts)) == Parse(file) + KeysOf(accounts)
    decreases |accounts|
  {
    if |accounts| == 0 {
      assert Parse(file) + KeysOf(accounts) == Parse(file);
    } else {
      var init := accounts[..|accounts| - 1];
      var last := accounts[|accounts| - 1];
      assert AllWellFormed(init) by {
        forall i | 0 <= i < |init|
          ensures WellFormed(init[i].key, init[i].address)
        {
          assert init[i] == accounts[i];
        }
      }
      var before := SaveAll(file, init);
      assert Parse(before) == Parse(file) + KeysOf(init) by {
        SaveAllRoundTrip(file, init);
      }
      assert Parse(SaveAll(file, accounts)) == Parse(before) + [last.key] by {
        assert SaveAll(file, accounts) == Append(before, last.key, last.address);
        AppendRoundTrip(before, last.key, last.address);
      }
      assert KeysOf(accounts) == KeysOf(init) + [last.key];
    }
  }

  /** `generate_wallets`: run the loop body `count` times (not at all when `count <= 0`); the
      `i`-th body shows `created(i)` and then appends it to the file. */
  method GenerateWallets(file: string, count: int, created: nat -> Account)
    returns (file': string, shown: seq<Account>)
    ensures |shown| == Iterations(count)
    ensures forall i :: 0 <= i < |shown| ==> shown[i] == created(i)
    ensures file' == SaveAll(file, shown)
    ensures AllWellFormed(shown) ==> Parse(file') == Parse(file) + KeysOf(shown)
  {
    file' := file;
    shown := [];
    var i := 0;
    while i < count
      invariant 0 <= i == |shown| <= Iterations(count)
      invariant forall k :: 0 <= k < i ==> shown[k] == created(k)
      invariant file' == SaveAll(file, shown)
    {
      var account := created(i);
      file' := Append(file', account.key, account.address);
      shown := shown + [account];
      assert shown[..|shown| - 1] == shown[..i];
      i := i + 1;
    }
    if AllWellFormed(shown) {
      SaveAllRoundTrip(file, shown);
    }
  }
}
