# web3ocean wallet tool — Dafny model

`ocean.py` is an interactive command-line tool that keeps a list of EVM wallets
in a text file `wallets.txt`. It can report the balances of those wallets, sweep
their funds to a destination address, and generate new wallets. The program is
mostly calls into the `web3` library. This project models the pure logic
around those calls:

- **Wallet file** (`wallet_file.dfy`, module `WalletFile`). The file is a
  string. `Parse` is `load_wallets`: it cuts the file into lines, drops the
  lines whose `strip()` is empty, and keeps the first whitespace-delimited
  token of each remaining line. `Append` is `save_wallet`: it writes
  `key + " " + address`, with a `"\n"` in front only when the file is
  non-empty. The whitespace set is exactly Python's `str.isspace()`. The model
  cuts the file into segments at each `\n` and at each `\r` separately. Python
  treats `\r\n` as one line end and reads no line from an empty file; the model
  yields an extra empty segment for each `\r\n` and one empty segment for the
  empty file. Those segments are blank, so the keys are the same. A file that
  already ends in a line break still gets a `"\n"` before the next record,
  because it is not empty, so in the model the record follows an empty segment,
  which holds no key. For a file ending in `\n`, Python also reads an empty line
  there. For a file ending in a lone `\r`, the written `"\n"` completes a `\r\n`
  pair, and Python reads no empty line.
- **Chain answers** (`chain_client.dfy`, module `ChainClient`). Key-to-address
  derivation, balances, the gas price, nonces and address validity are fields
  of a `Node` value. They are inputs to the model and are never computed. The
  program asks the node again for every wallet, so balances, gas prices and
  nonces are indexed by the wallet's position in the file: a key listed twice
  may get different answers on its two lines.
- **Balance check** (`balances.dfy`, module `Balances`). `CheckBalances` is the
  loop of `check_balances`. It produces one report line per wallet in file
  order: a zero balance is reported as skipped, and any other balance is shown
  and added to the total.
- **Sweep** (`fund_sweep.dfy`, module `FundSweep`). `Decide` is the decision
  made for each wallet. `TransferFunds` is `transfer_funds`: it rejects an
  invalid destination before touching any wallet. Otherwise it produces one
  outcome per wallet: skipped for a zero balance, skipped when the balance
  cannot cover `gasPrice * 2100000`, or a transaction sending the rest.
- **Generation** (`generation.dfy`, module `Generation`). `GenerateWallets` is
  the loop of `generate_wallets`. It runs `max(count, 0)` times, shows each new
  account and appends it to the file. The key library's accounts are a
  parameter.
- **Menu** (`menu.dfy`, module `Menu`). `Menu` is the `menu` loop over the lines
  of standard input:
  - `1`, `2` and `3` start an operation; `2` and `3` read one more line (the
    destination or the count).
  - `0` exits.
  - Any other line is ignored.

  `Session` follows a whole run's effect on the wallet file.

Two behaviours of the code matter for the model:

- The code never estimates gas. Every sweep transaction uses the constant gas
  limit 2,100,000 (`ocean.py:64`). `FundSweep.GasLimit` is that constant.
- The code has no `try`/`except`. A failing RPC call does not skip one wallet
  and continue; it ends the whole program. The model treats every chain answer
  as available (see Left out).

## Model

| member | source | states |
|---|---|---|
| WalletFile.Lines | ocean.py:15-16 | cutting the file at each `\n` and each `\r` yields at least one segment, and no segment contains a line break |
| WalletFile.LinesSplit | ocean.py:15-16 | a line break in the file splits the segment list at exactly that point, for any text around it |
| WalletFile.LinesOfOneLine | ocean.py:15-16 | text without a line break reads as exactly one line |
| WalletFile.LeadingSpaces | ocean.py:16 | the count of leading characters that `strip()` removes: every counted one is whitespace, and the next one (if any) is not |
| WalletFile.WordLength | ocean.py:16 | the length of the first `split()` word: none of its characters is whitespace, and it ends at whitespace or at the end of the line |
| WalletFile.FirstToken | ocean.py:16 | `line.strip().split()[0]` of a non-blank line is non-empty and contains no whitespace |
| WalletFile.FirstTokenIsFirstWord | ocean.py:16 | the first token of a non-blank line occurs in that line with only whitespace before it, followed by whitespace or the end of the line |
| WalletFile.Keys | ocean.py:16 | the comprehension yields at most one key per line |
| WalletFile.Parse | ocean.py:14-16 | `load_wallets` yields at most one key per line of the file |
| WalletFile.KeysConcat | ocean.py:16 | the comprehension works line by line: the keys of two consecutive groups of lines are the keys of the first group followed by those of the second |
| WalletFile.NonBlankPositions | ocean.py:16 | lists, in strictly increasing order, positions that all hold non-blank lines |
| WalletFile.NonBlankPositionsComplete | ocean.py:16 | every non-blank line's position is in that list, so a non-blank line is never missed |
| WalletFile.KeysAtPositionsStep | ocean.py:16 | if the keys of the lines after position `i` match the non-blank lines after `i`, then the same holds from `i` on, whether line `i` is blank or not |
| WalletFile.KeysAtPositionsFrom | ocean.py:16 | for every suffix of the lines, the keys are the first tokens of exactly its non-blank lines, in order |
| WalletFile.KeysAreNonBlankLines | ocean.py:16 | parsing keeps exactly the non-blank lines, in file order: key `j` is the first token of the `j`-th non-blank line, and there are as many keys as non-blank lines |
| WalletFile.KeysAreTokens | ocean.py:16 | every key read back is non-empty and contains no whitespace |
| WalletFile.BlankLineIgnored | ocean.py:16 | a blank or whitespace-only line, wherever it is inserted, contributes no key |
| WalletFile.Append | ocean.py:20-25 | `save_wallet` only adds text: the old file is a strict prefix of the new one |
| WalletFile.AppendAddsOneLine | ocean.py:23-25 | a record without line breaks becomes exactly one new segment: the only segment of an empty file (no blank line before it), or the segment after all old segments of a non-empty one (which is preceded by an empty segment when the old file ends in a line break) |
| WalletFile.AppendAfterTrailingBreak | ocean.py:23-25 | when the old file ends in a line break, the record comes after one empty segment (an empty line in Python's reading when the break is `\n`); that segment adds no key, so the keys are the old keys followed by the record's |
| WalletFile.ParseEmpty | ocean.py:14-16 | an empty file holds no keys |
| WalletFile.ParseAppend | ocean.py:14-25 | for any key and address, appending keeps every old key in place and adds whatever the record alone reads as |
| WalletFile.WordLengthOfToken | ocean.py:16 | a token followed by whitespace or the end of the text is read as the whole first word |
| WalletFile.FirstTokenOfRecord | ocean.py:16-25 | a written record whose key is a token is not blank, and its first token is the key |
| WalletFile.RecordHasNoLineBreak | ocean.py:25 | a well-formed record contains no line break |
| WalletFile.ParseRecord | ocean.py:16-25 | a well-formed record read on its own yields exactly its key |
| WalletFile.AppendRoundTrip | ocean.py:14-25 | round trip: when the key is a token and the address has no line break, parsing after an append gives the old keys followed by the new key |
| Balances.LineFor | ocean.py:33-41 | each wallet's line carries the derived address; it is a skip line exactly when the balance read for that wallet is zero, and otherwise shows that exact positive balance |
| Balances.CheckBalances | ocean.py:29-43 | one report line per wallet, in file order; the total equals the sum of the non-zero balances, the sum of the amounts shown, and the sum of all balances |
| Balances.AmountsStep | ocean.py:37-41 | one more report line raises the sum of the shown amounts by the line's amount, or by nothing for a skip line |
| Balances.SkippingZeroesKeepsSum | ocean.py:37-41 | skipping zero balances does not change the total: the sum of the non-zero balances equals the sum of all of them |
| FundSweep.Decide | ocean.py:60-72 | skip exactly when the balance is zero; skip for the fee exactly when `0 < balance <= gasPrice * 2100000`; send exactly when the balance exceeds the fee, and then the value is positive and `value + fee == balance` |
| FundSweep.TransferFunds | ocean.py:47-86 | an invalid destination, and only that, yields the invalid-address result with no wallet processed; otherwise there is one outcome per wallet in file order, each following `Decide`, and every transaction uses the derived from-address, the destination, gas limit 2100000, and the gas price and pending nonce read for that wallet |
| FundSweep.TransactionsConcat | ocean.py:55-84 | transactions keep wallet order: the transactions of two consecutive groups of wallets are those of the first group followed by those of the second |
| FundSweep.TransactionsComeFromWallets | ocean.py:55-84 | every broadcast transaction is the `Sent` outcome of some wallet |
| FundSweep.SentIsBroadcast | ocean.py:72-84 | conversely, every wallet's `Sent` outcome is among the broadcast transactions |
| FundSweep.SweepSendsExactly | ocean.py:51-84 | an invalid destination broadcasts nothing; there are never more transactions than wallets; every transaction has a positive value, gas limit 2100000 and the destination, and comes from some wallet whose balance equals its value plus fee; conversely, for a valid destination every wallet whose balance exceeds its fee has its transaction broadcast |
| Generation.SaveAll | ocean.py:94-101 | saving accounts in turn only adds text after the old file, and adds some text whenever there is at least one account |
| Generation.SaveAllRoundTrip | ocean.py:94-101 | saving well-formed accounts in turn reads back as the old keys followed by the accounts' keys, in creation order |
| Generation.GenerateWallets | ocean.py:90-101 | exactly `max(count, 0)` accounts are shown and appended; the `i`-th is the key library's `i`-th account; the file is the old file with each of them saved in turn; when they are well-formed, the stored keys grow by exactly their keys |
| Menu.Menu | ocean.py:105-124 | the loop starts at most one operation per input line |
| Menu.EncodeOne | ocean.py:113-119 | starting one operation takes one or two input lines |
| Menu.Encode | ocean.py:113-119 | a list of operations takes at least one input line per operation |
| Menu.ExitStops | ocean.py:120-122 | choice `0` ends the loop at once; nothing after it is read or started |
| Menu.InvalidChoiceIgnored | ocean.py:123-124 | any line other than `0`-`3` starts nothing, and the loop continues as if the line were absent |
| Menu.MenuStartsOne | ocean.py:113-119 | the lines for `1`, `2` or `3` start exactly that one operation, with the line it prompts for |
| Menu.MenuDecodesEncoding | ocean.py:105-124 | the loop starts exactly the typed operations, each once and in order, and then continues with the following input |
| Menu.SessionThenExit | ocean.py:105-124 | typing some operations and then `0` starts exactly those operations and exits |
| Menu.Generated | ocean.py:94-101 | the accounts generated in a session are the key library's accounts, consecutively and in order |
| Generation.SaveAllConcat | ocean.py:101 | saving two batches one after the other equals saving their concatenation |
| Menu.SessionOnlyAppends | ocean.py:105-124 | the file after a session is the first file with every generated account saved after it, in order; balance checks and sweeps write nothing |
| Menu.SessionKeys | ocean.py:105-124 | with well-formed generated wallets, a session keeps every stored key and adds the generated keys after them, in creation order |
| Menu.InvalidChoiceKeepsFile | ocean.py:123-124 | an unrecognised choice leaves the wallet file exactly as the rest of the session leaves it |
| Menu.ReadOnlyCommandsKeepFile | ocean.py:114-117 | a balance check or a sweep does not change the wallet file |

## Left out

- The connection to the node and the startup check (`ocean.py:5-10`) are network calls into `web3`.
- `get_balance`, `gas_price`, `get_transaction_count`, `is_address` and `from_key` are network calls, key derivation or a local format check (`is_address`) inside foreign libraries. Their answers are fields of `ChainClient.Node`, so they are inputs and are never computed. How the node's answers change between wallets is not modelled: any answers are allowed, so the model does not promise that a key listed twice gets a fresh nonce on its second line.
- Signing and broadcasting (`ocean.py:82-84`) and the transaction hash are left out. A `Sent` outcome records the transaction dictionary that would be signed.
- `Account.create_with_mnemonic` and the mnemonic feature switch (`ocean.py:92`, `ocean.py:96`) are cryptography in a foreign library. New accounts are the parameter `created`.
- `from_wei` is a display conversion to a Decimal, used only for console output. Amounts stay in wei.
- Console output text is not modelled. Report lines and outcomes stand in for the messages.
- File handles, `open` and `tell` are not modelled; the file is a string value. A missing `wallets.txt` makes `load_wallets` raise and end the program; the model has no absent-file state. For appending, an absent file behaves like the empty string, as in the source.
- Failures inside an operation are not modelled. The source catches no exception, so a failed RPC call, a count line that `int()` rejects, or end of input after `2` or `3` ends the program. In the model, `int()` is the total parameter `countOf`. Input that ends after `2` or `3` stops the menu with `EndOfInput` and starts nothing.
- Menu.Session: chain state is not threaded through a session. Each operation's chain answers are independent inputs, so the session model states only the effect on the wallet file.
- Writing `"\n"` is modelled as a single LF, as on POSIX. On Windows, Python's text mode would write CR LF, which parses to the same keys.
- Concurrent writers and the read-then-use nonce race are out of scope, as in the source.
