/**
 The wallet store `wallets.txt`: a text file holding one record
 `<private key> <address>` per line, read back as the list of private keys.

 The file is a string value. Reading cuts it into segments at each `\n` and at
 each `\r` separately. Python's text mode treats a `\r\n` pair as one line end
 and yields no line at all for an empty file; the model instead yields an extra
 empty segment for each `\r\n` pair and one empty segment for the empty file.
 Those segments are blank, so the keys read back are the same as Python's.
 */
module WalletFile {

  /** Python's `str.isspace()`: the characters that `strip()` removes and `split()` splits on. */
  predicate IsSpace(c: char)
  {
    var n := c as int;
    || n == 0x20
    || (0x09 <= n <= 0x0D)
    || (0x1C <= n <= 0x1F)
    || n == 0x85
    || n == 0xA0
    || n == 0x1680
    || (0x2000 <= n <= 0x200A)
    || n == 0x2028
    || n == 0x2029
    || n == 0x202F
    || n == 0x205F
    || n == 0x3000
  }

  /** The characters at which the file is cut into segments. */
  predicate IsLineBreak(c: char)
  {
    c == '\n' || c == '\r'
  }

  predicate NoSpace(s: string)
  {
    forall i :: 0 <= i < |s| ==> !IsSpace(s[i])
  }

  predicate AllSpace(s: string)
  {
    forall i :: 0 <= i < |s| ==> IsSpace(s[i])
  }

  predicate NoLineBreak(s: string)
  {
    forall i :: 0 <= i < |s| ==> !IsLineBreak(s[i])
  }

  /** A line whose `strip()` is empty. */
  predicate IsBlank(line: string)
  {
    AllSpace(line)
  }

  /** A non-empty run of non-whitespace characters: one element of `split()`. */
  predicate IsToken(s: string)
  {
    |s| > 0 && NoSpace(s)
  }

  /** The file cut at every line break, in order. */
  function Lines(s: string): (ls: seq<string>)
    ensures |ls| >= 1
    ensures forall j :: 0 <= j < |ls| ==> NoLineBreak(ls[j])
    decreases |s|
  {
    if |s| == 0 then [""]
    else if IsLineBreak(s[0]) then [""] + Lines(s[1..])
    else
      var rest := Lines(s[1..]);
      [[s[0]] + rest[0]] + rest[1..]
  }

  /** The number of whitespace characters a line starts with. */
  function LeadingSpaces(s: string): (k: nat)
    ensures k <= |s|
    ensures forall i :: 0 <= i < k ==> IsSpace(s[i])
    ensures k == |s| || !IsSpace(s[k])
  {
    if |s| > 0 && IsSpace(s[0]) then 1 + LeadingSpaces(s[1..]) else 0
  }

  /** The length of the longest prefix without whitespace. */
  function WordLength(s: string): (n: nat)
    ensures n <= |s|
    ensures forall i :: 0 <= i < n ==> !IsSpace(s[i])
    ensures n == |s| || IsSpace(s[n])
  {
    if |s| == 0 || IsSpace(s[0]) then 0 else 1 + WordLength(s[1..])
  }

  /** `line.strip().split()[0]`: the first whitespace-delimited token of a non-blank line. */
  function FirstToken(line: string): (tok: string)
    requires !IsBlank(line)
    ensures IsToken(tok)
  {
    var k := LeadingSpaces(line);
    assert k < |line|;
    line[k..][..WordLength(line[k..])]
  }

  /** The first token is a whole word: only whitespace precedes it in the line, and
      the line ends or has whitespace right after it. */
  lemma FirstTokenIsFirstWord(line: string)
    requires !IsBlank(line)
    ensures var tok := FirstToken(line);
            exists k :: 0 <= k <= |line| - |tok| && AllSpace(line[..k]) && line[k..k + |tok|] == tok
                        && (k + |tok| == |line| || IsSpace(line[k + |tok|]))
  {
    var k := LeadingSpaces(line);
    var n := WordLength(line[k..]);
    assert line[k..k + n] == line[k..][..n];
    assert AllSpace(line[..k]);
  }

  /** The comprehension of `load_wallets`: the first token of every non-blank line, in order. */
  function Keys(lines: seq<string>): (keys: seq<string>)
    ensures |keys| <= |lines|
  {
    if |lines| == 0 then []
    else (if IsBlank(lines[0]) then [] else [FirstToken(lines[0])]) + Keys(lines[1..])
  }

  /** `load_wallets`: the private keys stored in the file, in file order. */
  function Parse(file: string): (keys: seq<string>)
    ensures |keys| <= |Lines(file)|
  {
    Keys(Lines(file))
  }

  /** The text `save_wallet` writes for one wallet. */
  function Record(key: string, address: string): string
  {
    key + " " + address
  }

  /** `save_wallet`: the file after appending one record; a newline separates it
      from earlier content only when the file is non-empty. */
  function Append(file: string, key: string, address: string): (file': string)
    ensures |file'| > |file| && file'[..|file|] == file
  {
    if |file| == 0 then Record(key, address) else file + "\n" + Record(key, address)
  }

  /** A record that reads back as exactly its key. */
  predicate WellFormed(key: string, address: string)
  {
    IsToken(key) && NoLineBreak(address)
  }

  // ---------------------------------------------------------------------------
  // Lines

  /** Cutting at a line break splits the line list at that point. */
  lemma {:induction false} LinesSplit(a: string, c: char, b: string)
    requires IsLineBreak(c)
    ensures Lines(a + [c] + b) == Lines(a) + Lines(b)
    decreases |a|
  {
    if |a| == 0 {
      assert a + [c] + b == [c] + b;
      assert ([c] + b)[1..] == b;
    } else {
      assert (a + [c] + b)[0] == a[0];
      assert (a + [c] + b)[1..] == a[1..] + [c] + b;
      LinesSplit(a[1..], c, b);
    }
  }

  /** Text without a line break is a single line. */
  lemma {:induction false} LinesOfOneLine(w: string)
    requires NoLineBreak(w)
    ensures Lines(w) == [w]
    decreases |w|
  {
    if |w| > 0 {
      LinesOfOneLine(w[1..]);
      assert [w[0]] + w[1..] == w;
    }
  }

  // ---------------------------------------------------------------------------
  // Keys

  /** The comprehension works line by line: keys of concatenated line lists concatenate. */
  lemma {:induction false} KeysConcat(x: seq<string>, y: seq<string>)
    ensures Keys(x + y) == Keys(x) + Keys(y)
    decreases |x|
  {
    if |x| == 0 {
      assert x + y == y;
    } else {
      var head := if IsBlank(x[0]) then [] else [FirstToken(x[0])];
      assert (x + y)[0] == x[0];
      assert (x + y)[1..] == x[1..] + y;
      KeysConcat(x[1..], y);
      calc {
        Keys(x + y);
        head + Keys(x[1..] + y);
        head + (Keys(x[1..]) + Keys(y));
        (head + Keys(x[1..])) + Keys(y);
        Keys(x) + Keys(y);
      }
    }
  }

  /** The positions, from `i` on, of the non-blank lines, in increasing order. */
  function NonBlankPositions(lines: seq<string>, i: nat): (ps: seq<nat>)
    requires i <= |lines|
    ensures forall j :: 0 <= j < |ps| ==> i <= ps[j] < |lines| && !IsBlank(lines[ps[j]])
    ensures forall j, k :: 0 <= j < k < |ps| ==> ps[j] < ps[k]
    decreases |lines| - i
  {
    if i == |lines| then []
    else (if IsBlank(lines[i]) then [] else [i]) + NonBlankPositions(lines, i + 1)
  }

  /** No non-blank line is missed. */
  lemma {:induction false} NonBlankPositionsComplete(lines: seq<string>, i: nat, p: nat)
    requires i <= p < |lines| && !IsBlank(lines[p])
    ensures p in NonBlankPositions(lines, i)
    decreases |lines| - i
  {
    if i < p {
      NonBlankPositionsComplete(lines, i + 1, p);
    }
  }

  /** The keys read from the lines from `i` on are the first tokens of the non-blank ones among them. */
  predicate KeysAtPositions(lines: seq<string>, i: nat)
    requires i <= |lines|
  {
    var keys, ps := Keys(lines[i..]), NonBlankPositions(lines, i);
    && |keys| == |ps|
    && forall j :: 0 <= j < |keys| ==> keys[j] == FirstToken(lines[ps[j]])
  }

  lemma KeysAtPositionsStep(lines: seq<string>, i: nat)
    requires i < |lines| && KeysAtPositions(lines, i + 1)
    ensures KeysAtPositions(lines, i)
  {
    var keys, rest := Keys(lines[i..]), Keys(lines[i + 1..]);
    var ps, qs := NonBlankPositions(lines, i), NonBlankPositions(lines, i + 1);
    assert keys == (if IsBlank(lines[i]) then [] else [FirstToken(lines[i])]) + rest by {
      assert lines[i..][0] == lines[i];
      assert lines[i..][1..] == lines[i + 1..];
    }
    if IsBlank(lines[i]) {
      assert keys == rest && ps == qs;
    } else {
      assert keys == [FirstToken(lines[i])] + rest;
      assert ps == [i] + qs;
      assert |keys| == |ps|;
      forall j | 0 <= j < |keys|
        ensures keys[j] == FirstToken(lines[ps[j]])
      {
        if j > 0 {
          assert keys[j] == rest[j - 1] && ps[j] == qs[j - 1];
        }
      }
    }
  }

  lemma {:induction false} KeysAtPositionsFrom(lines: seq<string>, i: nat)
    requires i <= |lines|
    ensures KeysAtPositions(lines, i)
    decreases |lines| - i
  {
    if i < |lines| {
      KeysAtPositionsFrom(lines, i + 1);
      KeysAtPositionsStep(lines, i);
    }
  }

  /** Parsing keeps exactly the non-blank lines, in file order, each mapped to its first token. */
  lemma KeysAreNonBlankLines(lines: seq<string>)
    ensures |Keys(lines)| == |NonBlankPositions(lines, 0)|
    ensures forall j :: 0 <= j < |Keys(lines)| ==>
              Keys(lines)[j] == FirstToken(lines[NonBlankPositions(lines, 0)[j]])
  {
    KeysAtPositionsFrom(lines, 0);
    assert lines[0..] == lines;
  }

  /** Every parsed key is a token: non-empty and free of whitespace. */
  lemma {:induction false} KeysAreTokens(lines: seq<string>)
    ensures forall j :: 0 <= j < |Keys(lines)| ==> IsToken(Keys(lines)[j])
    decreases |lines|
  {
    if |lines| > 0 {
      KeysAreTokens(lines[1..]);
    }
  }

  /** Blank and whitespace-only lines contribute nothing to the parse. */
  lemma BlankLineIgnored(before: seq<string>, blank: string, after: seq<string>)
    requires IsBlank(blank)
    ensures Keys(before + [blank] + after) == Keys(before) + Keys(after)
  {
    KeysConcat(before + [blank], after);
    KeysConcat(before, [blank]);
  }

  // ---------------------------------------------------------------------------
  // Round trip

  lemma {:induction false} WordLengthOfToken(tok: string, rest: string)
    requires NoSpace(tok)
    requires rest == [] || IsSpace(rest[0])
    ensures WordLength(tok + rest) == |tok|
    decreases |tok|
  {
    if |tok| == 0 {
      assert tok + rest == rest;
    } else {
      assert (tok + rest)[1..] == tok[1..] + rest;
      WordLengthOfToken(tok[1..], rest);
    }
  }

  /** A record starting with a token reads back as that token. */
  lemma FirstTokenOfRecord(key: string, address: string)
    requires IsToken(key)
    ensures !IsBlank(Record(key, address))
    ensures FirstToken(Record(key, address)) == key
  {
    var r := Record(key, address);
    assert r[0] == key[0];
    assert LeadingSpaces(r) == 0;
    assert r == key + (" " + address);
    WordLengthOfToken(key, " " + address);
    assert r[0..] == r;
  }

  /** Appending a record without line breaks adds exactly one line: the record itself, with no
      blank line before it when the file was empty, and right after the last old line otherwise. */
  lemma AppendAddsOneLine(file: string, key: string, address: string)
    requires NoLineBreak(Record(key, address))
    ensures |file| == 0 ==> Lines(Append(file, key, address)) == [Record(key, address)]
    ensures |file| > 0 ==> Lines(Append(file, key, address)) == Lines(file) + [Record(key, address)]
  {
    var rec := Record(key, address);
    LinesOfOneLine(rec);
    if |file| > 0 {
      assert file + "\n" + rec == file + ['\n'] + rec;
      LinesSplit(file, '\n', rec);
    }
  }

  /** A file that already ends in a line break still gets a `"\n"` before the record, because
      it is not empty: the new record then follows one empty segment, which holds no key. */
  lemma AppendAfterTrailingBreak(file: string, c: char, key: string, address: string)
    requires IsLineBreak(c) && NoLineBreak(Record(key, address))
    ensures Lines(Append(file + [c], key, address)) == Lines(file) + ["", Record(key, address)]
    ensures Parse(Append(file + [c], key, address)) == Parse(file) + Parse(Record(key, address))
  {
    var rec := Record(key, address);
    var tail := "" + ['\n'] + rec;
    assert Lines(tail) == ["", rec] by {
      LinesOfOneLine(rec);
      LinesSplit("", '\n', rec);
      assert Lines("") == [""];
    }
    assert Lines(Append(file + [c], key, address)) == Lines(file) + ["", rec] by {
      assert Append(file + [c], key, address) == file + [c] + tail;
      LinesSplit(file, c, tail);
    }
    assert Keys(["", rec]) == Keys([rec]) by {
      KeysConcat([""], [rec]);
      assert [""] + [rec] == ["", rec];
    }
    assert Parse(rec) == Keys([rec]) by {
      LinesOfOneLine(rec);
    }
    KeysConcat(Lines(file), ["", rec]);
  }

  /** The empty file holds no wallets. */
  lemma ParseEmpty()
    ensures Parse("") == []
  {
    assert Lines("") == [""];
  }

  /** Appending never disturbs the records already in the file: the keys read back
      are the old keys followed by whatever the new record reads as, for any record. */
  lemma ParseAppend(file: string, key: string, address: string)
    ensures Parse(Append(file, key, address)) == Parse(file) + Parse(Record(key, address))
  {
    var rec := Record(key, address);
    if |file| == 0 {
      ParseEmpty();
    } else {
      assert file + "\n" + rec == file + ['\n'] + rec;
      LinesSplit(file, '\n', rec);
      KeysConcat(Lines(file), Lines(rec));
    }
  }

  lemma RecordHasNoLineBreak(key: string, address: string)
    requires WellFormed(key, address)
    ensures NoLineBreak(Record(key, address))
  {
    var rec := Record(key, address);
    forall i | 0 <= i < |rec|
      ensures !IsLineBreak(rec[i])
    {
      if i < |key| {
        assert rec[i] == key[i];
      } else if i > |key| {
        assert rec[i] == address[i - |key| - 1];
      }
    }
  }

  /** A well-formed record on its own reads back as its key. */
  lemma ParseRecord(key: string, address: string)
    requires WellFormed(key, address)
    ensures Parse(Record(key, address)) == [key]
  {
    var rec := Record(key, address);
    RecordHasNoLineBreak(key, address);
    LinesOfOneLine(rec);
    FirstTokenOfRecord(key, address);
    assert [rec][1..] == [];
  }

  /** Round trip: appending a well-formed record and parsing again yields the old keys plus the new key. */
  lemma AppendRoundTrip(file: string, key: string, address: string)
    requires WellFormed(key, address)
    ensures Parse(Append(file, key, address)) == Parse(file) + [key]
  {
    ParseAppend(file, key, address);
    ParseRecord(key, address);
  }
}
