/**
 `menu`: the interactive loop. It reads a choice line; `1`, `2` and `3` start
 an operation, `0` ends the loop, and any other line is rejected and the menu
 shown again. The sweep and the generator each read one more line: the sweep
 first reads the wallet file and then the destination line, and the generator
 first reads the count line.
 */
module Menu {
  import opened WalletFile
  import opened Generation

  /** An operation the menu starts, with the line it prompted for. */
  datatype Command =
    | CheckBalances
    | TransferFunds(destination: string)
    | GenerateWallets(countLine: string)

  /** How the loop stops: choice `0`, or the input runs out (`input` raises `EOFError`). */
  datatype Stop = Exited | EndOfInput

  /** The operations started, in order, and how the loop stopped. */
  datatype MenuRun = MenuRun(commands: seq<Command>, stop: Stop)

  /** A line that starts nothing and does not exit: the "try again" branch. */
  predicate IsInvalidChoice(choice: string)
  {
    choice != "0" && choice != "1" && choice != "2" && choice != "3"
  }

  function Then(c: Command, run: MenuRun): MenuRun
  {
    MenuRun([c] + run.commands, run.stop)
  }

  /** The menu loop over the lines of standard input. */
  function Menu(input: seq<string>): (run: MenuRun)
    ensures |run.commands| <= |input|
    decreases |input|
  {
    if |input| == 0 then MenuRun([], EndOfInput)
    else
      var choice := input[0];
      if choice == "1" then Then(CheckBalances, Menu(input[1..]))
      else if choice == "2" then
        if |input| == 1 then MenuRun([], EndOfInput)
        else Then(TransferFunds(input[1]), Menu(input[2..]))
      else if choice == "3" then
        if |input| == 1 then MenuRun([], EndOfInput)
        else Then(GenerateWallets(input[1]), Menu(input[2..]))
      else if choice == "0" then MenuRun([], Exited)
      else Menu(input[1..])
  }

  /** The lines a user types to start one operation: the choice, then the line it prompts for. */
  function EncodeOne(c: Command): (lines: seq<string>)
    ensures 1 <= |lines| <= 2
  {
    match c
    case CheckBalances => ["1"]
    case TransferFunds(destination) => ["2", destination]
    case GenerateWallets(countLine) => ["3", countLine]
  }

  /** The lines a user types to start exactly these operations. */
  function Encode(commands: seq<Command>): (lines: seq<string>)
    ensures |lines| >= |commands|
  {
    if |commands| == 0 then [] else EncodeOne(commands[0]) + Encode(commands[1..])
  }

  // ---------------------------------------------------------------------------
  // Dispatch

  /** Choice `0` ends the loop at once: nothing after it is read or started. */
  lemma ExitStops(rest: seq<string>)
    ensures Menu(["0"] + rest) == MenuRun([], Exited)
  {
  }

  /** Any other unrecognised line starts nothing, and the loop goes on as if it were absent. */
  lemma InvalidChoiceIgnored(choice: string, rest: seq<string>)
    requires IsInvalidChoice(choice)
    ensures Menu([choice] + rest) == Menu(rest)
  {
    assert ([choice] + rest)[1..] == rest;
  }

  /** The lines typed for one operation start exactly that operation. */
  lemma MenuStartsOne(c: Command, after: seq<string>)
    ensures Menu(EncodeOne(c) + after) == Then(c, Menu(after))
  {
    var input := EncodeOne(c) + after;
    if c.CheckBalances? {
      assert input[1..] == after;
    } else {
      assert input[2..] == after;
    }
  }

  /** The menu reads back exactly the operations whose lines were typed, each started once,
      in order, and then carries on with whatever follows. */
  lemma {:induction false} MenuDecodesEncoding(commands: seq<Command>, rest: seq<string>)
    ensures Menu(Encode(commands) + rest) == MenuRun(commands + Menu(rest).commands, Menu(rest).stop)
    decreases |commands|
  {
    if |commands| == 0 {
      assert Encode(commands) + rest == rest;
      assert commands + Menu(rest).commands == Menu(rest).commands;
    } else {
      var c, tail := commands[0], commands[1..];
      var after := Encode(tail) + rest;
      assert Encode(commands) + rest == EncodeOne(c) + after;
      MenuDecodesEncoding(tail, rest);
      MenuStartsOne(c, after);
      assert commands + Menu(rest).commands == [c] + (tail + Menu(rest).commands) by {
        assert commands == [c] + tail;
      }
    }
  }

  /** Typing some operations and then `0` starts exactly those operations and exits. */
  lemma SessionThenExit(commands: seq<Command>, ignored: seq<string>)
    ensures Menu(Encode(commands) + ["0"] + ignored) == MenuRun(commands, Exited)
  {
    assert Encode(commands) + ["0"] + ignored == Encode(commands) + (["0"] + ignored);
    MenuDecodesEncoding(commands, ["0"] + ignored);
    assert commands + [] == commands;
  }

  // ---------------------------------------------------------------------------
  // Effect on the wallet file

  /** The accounts `generate_wallets` creates when its count line reads as `count`, the
      key library's `k`-th wallet of the session being `created(k)`. */
  function Batch(count: int, created: nat -> Account, start: nat): seq<Account>
  {
    seq(Iterations(count), i requires 0 <= i < Iterations(count) => created(start + i))
  }

  /** The wallet file after the commands have run one after another; `countOf` is Python's
      `int()` applied to the count line. Only generation writes to the file. */
  function RunCommands(file: string, commands: seq<Command>, countOf: string -> int,
                       created: nat -> Account, start: nat): string
    decreases |commands|
  {
    if |commands| == 0 then file
    else match commands[0]
      case GenerateWallets(countLine) =>
        var batch := Batch(countOf(countLine), created, start);
        RunCommands(SaveAll(file, batch), commands[1..], countOf, created, start + |batch|)
      case _ =>
        RunCommands(file, commands[1..], countOf, created, start)
  }

  /** Every account generated during the commands, in order. */
  function Generated(commands: seq<Command>, countOf: string -> int,
                     created: nat -> Account, start: nat): (accounts: seq<Account>)
    ensures forall i :: 0 <= i < |accounts| ==> accounts[i] == created(start + i)
    decreases |commands|
  {
    if |commands| == 0 then []
    else match commands[0]
      case GenerateWallets(countLine) =>
        var batch := Batch(countOf(countLine), created, start);
        batch + Generated(commands[1..], countOf, created, start + |batch|)
      case _ =>
        Generated(commands[1..], countOf, created, start)
  }

  /** Running a session only ever appends: the final file is the first one with every generated
      account saved after it, in order. */
  lemma {:induction false} SessionOnlyAppends(file: string, commands: seq<Command>, countOf: string -> int,
                                              created: nat -> Account, start: nat)
    ensures RunCommands(file, commands, countOf, created, start)
            == SaveAll(file, Generated(commands, countOf, created, start))
    decreases |commands|
  {
    if |commands| == 0 {
      assert SaveAll(file, []) == file;
    } else {
      match commands[0] {
        case GenerateWallets(countLine) =>
          var batch := Batch(countOf(countLine), created, start);
          var later := Generated(commands[1..], countOf, created, start + |batch|);
          SessionOnlyAppends(SaveAll(file, batch), commands[1..], countOf, created, start + |batch|);
          SaveAllConcat(file, batch, later);
        case CheckBalances =>
          SessionOnlyAppends(file, commands[1..], countOf, created, start);
        case TransferFunds(_) =>
          SessionOnlyAppends(file, commands[1..], countOf, created, start);
      }
    }
  }

  /** The wallet file after a whole interactive session. */
  function Session(file: string, input: seq<string>, countOf: string -> int, created: nat -> Account): string
  {
    RunCommands(file, Menu(input).commands, countOf, created, 0)
  }

  /** A session with well-formed generated wallets leaves the stored keys intact and adds
      the keys of the generated wallets after them, in the order they were created. */
  lemma SessionKeys(file: string, input: seq<string>, countOf: string -> int, created: nat -> Account)
    requires forall k: nat :: WellFormed(created(k).key, created(k).address)
    ensures Parse(Session(file, input, countOf, created))
            == Parse(file) + KeysOf(Generated(Menu(input).commands, countOf, created, 0))
  {
    var accounts := Generated(Menu(input).commands, countOf, created, 0);
    SessionOnlyAppends(file, Menu(input).commands, countOf, created, 0);
    assert AllWellFormed(accounts) by {
      forall i | 0 <= i < |accounts|
        ensures WellFormed(accounts[i].key, accounts[i].address)
      {
        assert accounts[i] == created(0 + i);
      }
    }
    SaveAllRoundTrip(file, accounts);
  }

  /** An unrecognised choice leaves the wallet file exactly as the rest of the session leaves it. */
  lemma InvalidChoiceKeepsFile(file: string, choice: string, rest: seq<string>,
                               countOf: string -> int, created: nat -> Account)
    requires IsInvalidChoice(choice)
    ensures Session(file, [choice] + rest, countOf, created) == Session(file, rest, countOf, created)
  {
    InvalidChoiceIgnored(choice, rest);
  }

  /** Checking balances and sweeping never write the wallet file. */
  lemma ReadOnlyCommandsKeepFile(file: string, c: Command, rest: seq<Command>,
                                 countOf: string -> int, created: nat -> Account, start: nat)
    requires !c.GenerateWallets?
    ensures RunCommands(file, [c] + rest, countOf, created, start) == RunCommands(file, rest, countOf, created, start)
  {
    assert ([c] + rest)[0] == c;
    assert ([c] + rest)[1..] == rest;
  }
}
