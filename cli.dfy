/** The command-line layer (main.go): which coins the `-coin` flag selects, where the phrases
    come from, and the summary lines printed for one phrase. Number formatting (`%.5f`) is a
    parameter `fmt`; lines are values rather than text on the terminal. */
module Cli {
  import opened Base
  import opened HDKeys
  import opened Records
  import opened Scanner
  import opened Eth

  // ---- The -coin flag ----

  /** The coins a run reports on (main.go's showBTC, showBCH and showETH). */
  datatype Selection = Selection(btc: bool, bch: bool, eth: bool)

  /** The switch on the lower-cased flag. None is "Invalid -coin flag.": nothing is scanned. */
  function SelectCoins(flag: string): (r: Option<Selection>)
    ensures r.Some? <==> ToLower(flag) in {"btc", "bch", "eth", "default"}
    ensures r.Some? ==> (r.value.btc <==> ToLower(flag) in {"btc", "default"})
    ensures r.Some? ==> (r.value.bch <==> ToLower(flag) == "bch")
    ensures r.Some? ==> (r.value.eth <==> ToLower(flag) in {"eth", "default"})
  {
    match ToLower(flag)
    case "btc" => Some(Selection(true, false, false))
    case "bch" => Some(Selection(false, true, false))
    case "eth" => Some(Selection(false, false, true))
    case "default" => Some(Selection(true, false, true))
    case _ => None
  }

  /** Every accepted flag selects at least one coin, and BCH is never scanned together with
      another coin. */
  lemma SelectionShape(flag: string)
    requires SelectCoins(flag).Some?
    ensures var s := SelectCoins(flag).value;
      (s.btc || s.bch || s.eth) && (s.bch ==> !s.btc && !s.eth)
  {
  }

  /** The flag is read case-insensitively. */
  lemma FlagCaseIgnored()
    ensures SelectCoins("BTC") == Some(Selection(true, false, false))
    ensures SelectCoins("Default") == Some(Selection(true, false, true))
  {
    assert ToLower("BTC") == "btc";
    assert ToLower("Default") == "default";
  }

  /** "all", which the flag's help text offers, is rejected like any unknown word. */
  lemma AllIsInvalid()
    ensures SelectCoins("all") == None
    ensures SelectCoins("ALL") == None
  {
    assert ToLower("all") == "all";
    assert ToLower("ALL") == "all";
  }

  // ---- Where the phrases come from ----

  /** The phrases file as the program finds it: absent, present but unreadable (the load
      error is printed and the data is empty), or its contents. */
  datatype PhraseFile = Missing | Unreadable | Contents(data: string)

  /** The elements of `s` that `keep` accepts, in order. */
  function Filter<T>(s: seq<T>, keep: T -> bool): seq<T>
  {
    if s == [] then [] else Filter(s[..|s| - 1], keep) + (if keep(s[|s| - 1]) then [s[|s| - 1]] else [])
  }

  /** The phrases to process, or None for the usage message: the valid lines of the file when
      there are no arguments, the twelve arguments joined by spaces when there are twelve, and
      nothing for any other count. */
  function PhraseSource(args: seq<string>, file: PhraseFile, valid: string -> bool): Option<seq<string>>
  {
    if |args| == 0 then
      match file
      case Missing => None
      case Unreadable => Some(Filter(Split("", '\n'), valid))
      case Contents(data) => Some(Filter(Split(data, '\n'), valid))
    else if |args| == 12 then Some([Join(args, " ")])
    else None
  }

  /** The branch of main on the argument count. */
  method LoadPhrases(args: seq<string>, file: PhraseFile, valid: string -> bool) returns (phrases: Option<seq<string>>)
    ensures phrases == PhraseSource(args, file, valid)
  {
    if |args| == 0 {
      if file.Missing? {
        return None;
      }
      var data := if file.Contents? then file.data else "";
      var splits := Split(data, '\n');
      var found := FilterLines(splits, valid);
      return Some(found);
    } else if |args| == 12 {
      var phrase := JoinArgs(args);
      return Some([phrase]);
    } else {
      return None;
    }
  }

  /** The loop over the file's lines that keeps the valid ones. */
  method FilterLines(splits: seq<string>, valid: string -> bool) returns (phrases: seq<string>)
    ensures phrases == Filter(splits, valid)
  {
    phrases := [];
    for i := 0 to |splits|
      invariant phrases == Filter(splits[..i], valid)
    {
      assert splits[..i + 1][..i] == splits[..i];
      if valid(splits[i]) {
        phrases := phrases + [splits[i]];
      }
    }
    assert splits[..|splits|] == splits;
  }

  /** The loop over the twelve arguments: each word, then a space after all but the last. */
  method JoinArgs(args: seq<string>) returns (phrase: string)
    requires |args| == 12
    ensures phrase == Join(args, " ")
  {
    phrase := "";
    for i := 0 to |args|
      invariant phrase == if i == 0 then "" else Join(args[..i], " ") + (if i < 12 then " " else "")
    {
      if i == 0 {
        assert args[..1] == [args[0]];
      } else {
        assert args[..i + 1] == args[..i] + [args[i]];
        JoinSnoc(args[..i], args[i], " ");
      }
      phrase := phrase + args[i];
      if i < 11 {
        phrase := phrase + " ";
      }
    }
    assert args[..12] == args;
  }

  /** Filtering keeps exactly the accepted elements, in their order: the result picks the
      elements at strictly increasing positions, and a position is picked iff its element is
      accepted. */
  lemma FilterPicks<T>(s: seq<T>, keep: T -> bool) returns (pos: seq<nat>)
    ensures |pos| == |Filter(s, keep)|
    ensures forall k :: 0 <= k < |pos| ==> pos[k] < |s| && Filter(s, keep)[k] == s[pos[k]]
    ensures forall k, l :: 0 <= k < l < |pos| ==> pos[k] < pos[l]
    ensures forall i :: 0 <= i < |s| ==> (keep(s[i]) <==> i in pos)
  {
    pos := Positions(s, keep);
    PositionsIndex(s, keep);
    PositionsIncrease(s, keep);
    PositionsExact(s, keep);
  }

  /** The positions of the accepted elements. */
  function Positions<T>(s: seq<T>, keep: T -> bool): seq<nat>
  {
    if s == [] then [] else Positions(s[..|s| - 1], keep) + (if keep(s[|s| - 1]) then [|s| - 1] else [])
  }

  lemma {:induction false} PositionsIndex<T>(s: seq<T>, keep: T -> bool)
    ensures var pos := Positions(s, keep);
      |pos| == |Filter(s, keep)| &&
      forall k :: 0 <= k < |pos| ==> pos[k] < |s| && Filter(s, keep)[k] == s[pos[k]]
    decreases |s|
  {
    if s != [] {
      var n := |s| - 1;
      var init := s[..n];
      PositionsIndex(init, keep);
      var pos0 := Positions(init, keep);
      var f0 := Filter(init, keep);
      var pos := Positions(s, keep);
      forall k | 0 <= k < |pos|
        ensures pos[k] < |s| && Filter(s, keep)[k] == s[pos[k]]
      {
        if k < |pos0| {
          assert pos[k] == pos0[k] && Filter(s, keep)[k] == f0[k];
          assert init[pos0[k]] == s[pos0[k]];
        }
      }
    }
  }

  lemma {:induction false} PositionsIncrease<T>(s: seq<T>, keep: T -> bool)
    ensures var pos := Positions(s, keep);
      forall k, l :: 0 <= k < l < |pos| ==> pos[k] < pos[l]
    decreases |s|
  {
    if s != [] {
      var n := |s| - 1;
      PositionsIncrease(s[..n], keep);
      PositionsIndex(s[..n], keep);
    }
  }

  lemma {:induction false} PositionsExact<T>(s: seq<T>, keep: T -> bool)
    ensures forall i :: 0 <= i < |s| ==> (keep(s[i]) <==> i in Positions(s, keep))
    decreases |s|
  {
    if s != [] {
      var n := |s| - 1;
      var init := s[..n];
      PositionsExact(init, keep);
      PositionsIndex(init, keep);
      var pos0 := Positions(init, keep);
      var last := if keep(s[n]) then [n] else [];
      assert Positions(s, keep) == pos0 + last;
      assert forall k :: 0 <= k < |pos0| ==> pos0[k] < n;
      assert n !in pos0;
      forall i | 0 <= i < |s|
        ensures keep(s[i]) <==> i in pos0 + last
      {
        if i < n {
          assert s[i] == init[i];
          assert i !in last;
        }
      }
    }
  }

  /** Any argument count other than 0 and 12 processes no phrase, and only a missing file
      stops the file mode. */
  lemma ArgumentCountRule(args: seq<string>, file: PhraseFile, valid: string -> bool)
    ensures PhraseSource(args, file, valid).None? <==> (|args| != 0 && |args| != 12) || (|args| == 0 && file.Missing?)
  {
  }

  /** Twelve arguments make one phrase, which splits back into the twelve arguments when none
      of them holds a space; its length is the words' total plus the eleven spaces. */
  lemma TwelveWordsRoundTrip(args: seq<string>, file: PhraseFile, valid: string -> bool)
    requires |args| == 12
    requires forall i :: 0 <= i < 12 ==> ' ' !in args[i]
    ensures PhraseSource(args, file, valid) == Some([Join(args, " ")])
    ensures Split(Join(args, " "), ' ') == args
    ensures |Join(args, " ")| == TotalLength(args) + 11
  {
    SplitJoin(args, ' ');
    JoinLength(args, " ");
  }

  /** An unreadable file yields the one empty line, kept only if it is valid. */
  lemma UnreadableFileGivesEmptyLine(file: PhraseFile, valid: string -> bool)
    requires file.Unreadable?
    ensures PhraseSource([], file, valid) == Some(if valid("") then [""] else [])
  {
    assert Split("", '\n') == [""];
    assert [""][..0] == [];
    var none: seq<string> := [];
    assert Filter(none, valid) == [];
    assert Filter([""], valid) == Filter(none, valid) + (if valid("") then [""] else []);
    assert PhraseSource([], file, valid) == Some(Filter([""], valid));
    if valid("") {
      assert Filter([""], valid) == [""];
    } else {
      assert Filter([""], valid) == [];
    }
  }

  // ---- What is printed ----

  /** A printed line: `crypto` (a title and a text), the `crypto` line of a failed lookup, and
      the two token lines `subcrypto1` and `subcrypto2`. */
  datatype Line =
    | Crypto(title: string, text: string)
    | Problem(title: string, err: Error)
    | SubCrypto1(name: string, text: string)
    | SubCrypto2(name: string, text: string)

  /** One bitcoin variant of printBTCBalances: the coin flag, its display type, and what the
      lookup wrote back. */
  datatype BTCFormat = BTCFormat(coin: string, kind: string, isUsed: bool, balance: real)

  predicate IsUsed(c: BTCFormat)
  {
    c.isUsed
  }

  function Used(coins: seq<BTCFormat>): seq<BTCFormat>
  {
    Filter(coins, IsUsed)
  }

  /** Every variant's scan ends within `fuel` batches. */
  predicate AllEnd(p: Phrase, coins: seq<BTCFormat>, env: Env, fuel: nat)
  {
    forall i :: 0 <= i < |coins| ==> Scan(p, coins[i].coin, env, fuel).Some?
  }

  /** A variant after its lookup: the balance and the used flag of its scan, whether or not
      the scan also reported an error. */
  function LookedUp(p: Phrase, c: BTCFormat, env: Env, fuel: nat): (r: BTCFormat)
    requires Scan(p, c.coin, env, fuel).Some?
    ensures r.coin == c.coin && r.kind == c.kind
    ensures r.isUsed == Scan(p, c.coin, env, fuel).value.isUsed
    ensures r.balance == Scan(p, c.coin, env, fuel).value.balance
  {
    var s := Scan(p, c.coin, env, fuel).value;
    c.(balance := s.balance, isUsed := s.isUsed)
  }

  function LookedUpAll(p: Phrase, coins: seq<BTCFormat>, env: Env, fuel: nat): (r: seq<BTCFormat>)
    requires AllEnd(p, coins, env, fuel)
    ensures |r| == |coins| && forall i :: 0 <= i < |coins| ==> r[i] == LookedUp(p, coins[i], env, fuel)
  {
    seq(|coins|, i requires 0 <= i < |coins| => LookedUp(p, coins[i], env, fuel))
  }

  /** The problem lines of the lookups that reported an error, in order. */
  function Problems(p: Phrase, coins: seq<BTCFormat>, env: Env, fuel: nat): seq<Line>
    requires AllEnd(p, coins, env, fuel)
  {
    if coins == [] then [] else Problems(p, coins[..|coins| - 1], env, fuel) + ProblemOf(p, coins[|coins| - 1], env, fuel)
  }

  /** The problem line of one variant's lookup, if it reported an error. */
  function ProblemOf(p: Phrase, c: BTCFormat, env: Env, fuel: nat): seq<Line>
    requires Scan(p, c.coin, env, fuel).Some?
  {
    var err := Scan(p, c.coin, env, fuel).value.err;
    if err.Some? then [Problem("There was a problem with " + c.coin, err.value)] else []
  }

  /** One used variant in the summary: its balance, the title and its type in parentheses. */
  function Entry(title: string, c: BTCFormat, fmt: Amount -> string): string
  {
    fmt(Finite(c.balance)) + title + " (" + c.kind + ")"
  }

  function Entries(title: string, coins: seq<BTCFormat>, fmt: Amount -> string): (r: seq<string>)
    ensures |r| == |coins| && forall i :: 0 <= i < |coins| ==> r[i] == Entry(title, coins[i], fmt)
  {
    seq(|coins|, i requires 0 <= i < |coins| => Entry(title, coins[i], fmt))
  }

  const UsedPrefix: string := "** Used ** Balance: "

  /** The summary of printBTCBalances: "Unused" when no variant is used, otherwise the used
      variants, in order, separated by ", ". */
  function SummaryText(title: string, coins: seq<BTCFormat>, fmt: Amount -> string): string
  {
    if Used(coins) == [] then "Unused" else UsedPrefix + Join(Entries(title, Used(coins), fmt), ", ")
  }

  /** What printBTCBalances prints: the problem lines, then the summary line. */
  function BTCLines(p: Phrase, title: string, coins: seq<BTCFormat>, env: Env, fmt: Amount -> string, fuel: nat): seq<Line>
    requires AllEnd(p, coins, env, fuel)
  {
    Problems(p, coins, env, fuel) + [Crypto(title, SummaryText(title, LookedUpAll(p, coins, env, fuel), fmt))]
  }

  lemma FilterSnoc<T>(s: seq<T>, i: nat, keep: T -> bool)
    requires i < |s|
    ensures Filter(s[..i + 1], keep) == Filter(s[..i], keep) + (if keep(s[i]) then [s[i]] else [])
  {
    assert s[..i + 1][..i] == s[..i];
  }

  lemma {:induction false} FilterPrefixShorter<T>(s: seq<T>, i: nat, keep: T -> bool)
    requires i <= |s|
    ensures |Filter(s[..i], keep)| <= |Filter(s, keep)|
    decreases |s| - i
  {
    if i < |s| {
      FilterSnoc(s, i, keep);
      FilterPrefixShorter(s, i + 1, keep);
    } else {
      assert s[..i] == s;
    }
  }

  /** The first loop of printBTCBalances: look every variant up, store its balance and used
      flag in place, print a problem line for each error and count the used variants. */
  method LookupVariants(p: Phrase, coins: array<BTCFormat>, env: Env, ghost fuel: nat)
    returns (numused: nat, problems: seq<Line>)
    requires AllEnd(p, coins[..], env, fuel)
    modifies coins
    ensures coins[..] == LookedUpAll(p, old(coins[..]), env, fuel)
    ensures problems == Problems(p, old(coins[..]), env, fuel)
    ensures numused == |Used(coins[..])|
  {
    ghost var orig := coins[..];
    numused, problems := 0, [];
    for i := 0 to coins.Length
      invariant forall j :: 0 <= j < i ==> coins[j] == LookedUp(p, orig[j], env, fuel)
      invariant forall j :: i <= j < coins.Length ==> coins[j] == orig[j]
      invariant problems == Problems(p, orig[..i], env, fuel)
      invariant numused == |Used(coins[..i])|
    {
      assert orig[..i + 1][..i] == orig[..i];
      var c, problem := LookupOne(p, coins[i], env, fuel);
      problems := problems + problem;
      coins[i] := c;
      FilterSnoc(coins[..], i, IsUsed);
      if coins[i].isUsed {
        numused := numused + 1;
      }
    }
    assert orig[..coins.Length] == orig;
    assert coins[..coins.Length] == coins[..];
  }

  /** One pass of that loop: the lookup, its problem line, and the variant with the lookup's
      balance and used flag. */
  method LookupOne(p: Phrase, v: BTCFormat, env: Env, ghost fuel: nat) returns (c: BTCFormat, problem: seq<Line>)
    requires Scan(p, v.coin, env, fuel).Some?
    ensures c == LookedUp(p, v, env, fuel) && problem == ProblemOf(p, v, env, fuel)
  {
    var balance, isUsed, _, err := LookupBTCBal(p, v.coin, env, fuel);
    problem := [];
    if err.Some? {
      problem := [Problem("There was a problem with " + v.coin, err.value)];
    }
    c := v.(balance := balance, isUsed := isUsed);
  }

  /** The second part of printBTCBalances: build the summary text from the used count. */
  method Summary(title: string, coins: seq<BTCFormat>, numused: nat, fmt: Amount -> string) returns (output: string)
    requires numused == |Used(coins)|
    ensures output == SummaryText(title, coins, fmt)
  {
    if numused == 0 {
      return "Unused";
    }
    output := UsedPrefix;
    var done := 0;
    for i := 0 to |coins|
      invariant done == |Used(coins[..i])| <= numused
      invariant output == Partial(title, Used(coins[..i]), numused, fmt)
    {
      FilterSnoc(coins, i, IsUsed);
      FilterPrefixShorter(coins, i + 1, IsUsed);
      if coins[i].isUsed {
        PartialStep(title, Used(coins[..i]), coins[i], numused, fmt);
        output := output + Entry(title, coins[i], fmt);
        done := done + 1;
        if done < numused {
          output := output + ", ";
        }
        assert output == Partial(title, Used(coins[..i]) + [coins[i]], numused, fmt);
      } else {
        assert Used(coins[..i + 1]) == Used(coins[..i]);
      }
    }
    assert coins[..|coins|] == coins;
  }

  /** The summary text after some of the used variants: the entries so far, and a separator
      when more are to come. */
  function Partial(title: string, used: seq<BTCFormat>, numused: nat, fmt: Amount -> string): string
  {
    if used == [] then UsedPrefix
    else UsedPrefix + Join(Entries(title, used, fmt), ", ") + (if |used| < numused then ", " else "")
  }

  lemma PartialStep(title: string, used: seq<BTCFormat>, c: BTCFormat, numused: nat, fmt: Amount -> string)
    requires |used| < numused
    ensures Partial(title, used + [c], numused, fmt)
         == Partial(title, used, numused, fmt) + Entry(title, c, fmt) + (if |used| + 1 < numused then ", " else "")
  {
    var e := Entry(title, c, fmt);
    var es := Entries(title, used, fmt);
    assert Entries(title, used + [c], fmt) == es + [e];
    if used == [] {
      assert es + [e] == [e];
    } else {
      JoinSnoc(es, e, ", ");
    }
  }

  /** printBTCBalances on an array of variants. */
  method PrintBTCBalances(p: Phrase, title: string, coins: array<BTCFormat>, env: Env, fmt: Amount -> string, ghost fuel: nat)
    returns (lines: seq<Line>)
    requires AllEnd(p, coins[..], env, fuel)
    modifies coins
    ensures coins[..] == LookedUpAll(p, old(coins[..]), env, fuel)
    ensures lines == BTCLines(p, title, old(coins[..]), env, fmt, fuel)
  {
    var numused, problems := LookupVariants(p, coins, env, fuel);
    var output := Summary(title, coins[..], numused, fmt);
    lines := problems + [Crypto(title, output)];
  }

  /** The summary reads "Unused" exactly when no scan reported the address range used; a
      scan that failed but saw a used address still counts. */
  lemma {:induction false} UnusedIffNoneUsed(title: string, coins: seq<BTCFormat>, fmt: Amount -> string)
    ensures SummaryText(title, coins, fmt) == "Unused" <==> forall i :: 0 <= i < |coins| ==> !coins[i].isUsed
  {
    var pos := FilterPicks(coins, IsUsed);
    if Used(coins) != [] {
      assert UsedPrefix[0] != "Unused"[0];
      assert (UsedPrefix + Join(Entries(title, Used(coins), fmt), ", "))[0] == UsedPrefix[0];
      assert coins[pos[0]].isUsed;
    } else {
      assert forall i :: 0 <= i < |coins| ==> (coins[i].isUsed <==> i in pos);
    }
  }

  /** When used, the summary lists the used variants, each once, in input order, with ", "
      between two and none after the last. */
  lemma UsedListing(title: string, coins: seq<BTCFormat>, fmt: Amount -> string) returns (pos: seq<nat>)
    requires exists i :: 0 <= i < |coins| && coins[i].isUsed
    ensures SummaryText(title, coins, fmt) == UsedPrefix + Join(Entries(title, Used(coins), fmt), ", ")
    ensures |pos| == |Used(coins)| >= 1
    ensures forall k :: 0 <= k < |pos| ==> pos[k] < |coins| && Used(coins)[k] == coins[pos[k]]
    ensures forall k, l :: 0 <= k < l < |pos| ==> pos[k] < pos[l]
    ensures forall i :: 0 <= i < |coins| ==> (coins[i].isUsed <==> i in pos)
  {
    pos := FilterPicks(coins, IsUsed);
    var i :| 0 <= i < |coins| && coins[i].isUsed;
    assert i in pos;
  }

  /** A variant whose lookup failed is still shown as used when its scan saw a used address. */
  lemma ErrorDoesNotHideUse(p: Phrase, title: string, coins: seq<BTCFormat>, env: Env, fmt: Amount -> string, fuel: nat, i: nat)
    requires AllEnd(p, coins, env, fuel) && i < |coins|
    requires Scan(p, coins[i].coin, env, fuel).value.isUsed
    ensures SummaryText(title, LookedUpAll(p, coins, env, fuel), fmt) != "Unused"
  {
    UnusedIffNoneUsed(title, LookedUpAll(p, coins, env, fuel), fmt);
  }

  // ---- printETHBalances ----

  /** The balance text: "Unused" without transactions, otherwise the balance and the title. */
  function UsedText(rec: AddressRecord, title: string, fmt: Amount -> string): string
  {
    if rec.txCount == 0 then "Unused" else UsedPrefix + fmt(Finite(rec.balance)) + title
  }

  function TokenText(t: Token, fmt: Amount -> string): string
  {
    fmt(t.balance) + t.ticker
  }

  /** What printETHBalances prints: a problem line when LookupETH reported an error (and
      nothing more), otherwise the balance line and one line per token. */
  function ETHLines(p: Phrase, title: string, testnet: bool, env: Env, fmt: Amount -> string): seq<Line>
  {
    ETHReport(ETHSpec(p, testnet, env), title, fmt)
  }

  function ETHReport(r: (seq<AddressRecord>, Option<Error>), title: string, fmt: Amount -> string): seq<Line>
  {
    if r.1.Some? then [Problem("There was a problem with " + title, r.1.value)]
    else if r.0 == [] then []
    else [Crypto(title, UsedText(r.0[0], title, fmt))] + TokenLinesOf(r.0[0].tokens, fmt)
  }

  function TokenLinesOf(tokens: seq<Token>, fmt: Amount -> string): seq<Line>
  {
    seq(|tokens|, i requires 0 <= i < |tokens| =>
      if i < |tokens| - 1 then SubCrypto1(tokens[i].name, TokenText(tokens[i], fmt))
      else SubCrypto2(tokens[i].name, TokenText(tokens[i], fmt)))
  }

  /** The token loop: `subcrypto1` for every token but the last, `subcrypto2` for the last. */
  method TokenLines(tokens: seq<Token>, fmt: Amount -> string) returns (lines: seq<Line>)
    ensures |lines| == |tokens|
    ensures forall i :: 0 <= i < |tokens| - 1 ==> lines[i] == SubCrypto1(tokens[i].name, TokenText(tokens[i], fmt))
    ensures |tokens| > 0 ==> lines[|tokens| - 1] == SubCrypto2(tokens[|tokens| - 1].name, TokenText(tokens[|tokens| - 1], fmt))
  {
    lines := [];
    for i := 0 to |tokens|
      invariant |lines| == i
      invariant forall j :: 0 <= j < i ==>
        lines[j] == (if j < |tokens| - 1 then SubCrypto1(tokens[j].name, TokenText(tokens[j], fmt))
                     else SubCrypto2(tokens[j].name, TokenText(tokens[j], fmt)))
    {
      var output := TokenText(tokens[i], fmt);
      if i < |tokens| - 1 {
        lines := lines + [SubCrypto1(tokens[i].name, output)];
      } else {
        lines := lines + [SubCrypto2(tokens[i].name, output)];
      }
    }
  }

  method PrintETHBalances(p: Phrase, title: string, testnet: bool, env: Env, fmt: Amount -> string) returns (lines: seq<Line>)
    ensures lines == ETHLines(p, title, testnet, env, fmt)
  {
    var addslice, err := LookupETH(p, testnet, env);
    ETHSpecShape(p, testnet, env);
    lines := Report(addslice, err, title, fmt);
  }

  /** printETHBalances after the lookup. */
  method Report(addslice: seq<Address>, err: Option<Error>, title: string, fmt: Amount -> string) returns (lines: seq<Line>)
    requires err.None? ==> |addslice| == 1
    ensures lines == ETHReport((Views(addslice), err), title, fmt)
  {
    if err.Some? {
      return [Problem("There was a problem with " + title, err.value)];
    }
    var add := addslice[0];
    assert Views(addslice)[0] == add.View();
    var output := if add.txCount == 0 then "Unused" else UsedPrefix + fmt(Finite(add.balance)) + title;
    lines := [Crypto(title, output)];
    if |add.tokens| == 0 {
      assert TokenLinesOf(add.tokens, fmt) == [];
      return;
    }
    var more := TokenLines(add.tokens, fmt);
    assert more == TokenLinesOf(add.tokens, fmt);
    lines := lines + more;
  }

  /** Without an error there is exactly one wallet record; its line reads "Unused" exactly
      when it has no transactions, and one token line follows per token, the last one drawn
      with `subcrypto2`. With an error only the problem line is printed. */
  lemma ETHLinesShape(p: Phrase, title: string, testnet: bool, env: Env, fmt: Amount -> string)
    ensures var (recs, err) := ETHSpec(p, testnet, env);
      var lines := ETHLines(p, title, testnet, env, fmt);
      && (err.Some? ==> lines == [Problem("There was a problem with " + title, err.value)])
      && (err.None? ==>
            && |recs| == 1 && |lines| == 1 + |recs[0].tokens|
            && (lines[0] == Crypto(title, "Unused") <==> recs[0].txCount == 0)
            && (forall i :: 1 <= i < |lines| ==> (lines[i].SubCrypto2? <==> i == |lines| - 1)))
  {
    ETHSpecShape(p, testnet, env);
    var (recs, err) := ETHSpec(p, testnet, env);
    if err.None? {
      var add := recs[0];
      var lines := ETHLines(p, title, testnet, env, fmt);
      if add.txCount != 0 {
        assert UsedText(add, title, fmt)[..|UsedPrefix|] == UsedPrefix;
        assert UsedText(add, title, fmt) != "Unused";
      }
    }
  }

  // ---- One phrase ----

  const BTCVariants: seq<BTCFormat> := [BTCFormat("btc32", "BIP32", false, 0.0), BTCFormat("btc44", "BIP44", false, 0.0)]
  const BCHVariants: seq<BTCFormat> := [BTCFormat("bch32", "BIP32", false, 0.0),
                                         BTCFormat("bch440", "BIP44-coin0", false, 0.0),
                                         BTCFormat("bch44145", "BIP44-coin145", false, 0.0)]

  /** The lines of one phrase: BTC, then BCH, then ETH, each when selected. */
  function PhraseLines(p: Phrase, sel: Selection, env: Env, fmt: Amount -> string, fuel: nat): seq<Line>
    requires sel.btc ==> AllEnd(p, BTCVariants, env, fuel)
    requires sel.bch ==> AllEnd(p, BCHVariants, env, fuel)
  {
    (if sel.btc then BTCLines(p, "BTC", BTCVariants, env, fmt, fuel) else [])
      + (if sel.bch then BTCLines(p, "BCH", BCHVariants, env, fmt, fuel) else [])
      + (if sel.eth then ETHLines(p, "ETH", false, env, fmt) else [])
  }

  /** The body of main's loop over the phrases, after the header. */
  method ReportPhrase(p: Phrase, sel: Selection, env: Env, fmt: Amount -> string, ghost fuel: nat) returns (lines: seq<Line>)
    requires sel.btc ==> AllEnd(p, BTCVariants, env, fuel)
    requires sel.bch ==> AllEnd(p, BCHVariants, env, fuel)
    ensures lines == PhraseLines(p, sel, env, fmt, fuel)
  {
    var btc, bch, eth := [], [], [];
    if sel.btc {
      btc := PrintVariants(p, "BTC", BTCVariants, env, fmt, fuel);
    }
    if sel.bch {
      bch := PrintVariants(p, "BCH", BCHVariants, env, fmt, fuel);
    }
    if sel.eth {
      eth := PrintETHBalances(p, "ETH", false, env, fmt);
    }
    lines := btc + bch + eth;
  }

  /** printBTCBalances on a fresh slice holding the given variants. */
  method PrintVariants(p: Phrase, title: string, variants: seq<BTCFormat>, env: Env, fmt: Amount -> string, ghost fuel: nat)
    returns (lines: seq<Line>)
    requires AllEnd(p, variants, env, fuel)
    ensures lines == BTCLines(p, title, variants, env, fmt, fuel)
  {
    var coins := new BTCFormat[|variants|](i requires 0 <= i < |variants| => variants[i]);
    assert coins[..] == variants;
    lines := PrintBTCBalances(p, title, coins, env, fmt, fuel);
  }

  /** The default flag reports BTC and then ETH, and never BCH. */
  lemma DefaultReportsBTCThenETH(p: Phrase, env: Env, fmt: Amount -> string, fuel: nat)
    requires AllEnd(p, BTCVariants, env, fuel)
    ensures SelectCoins("default") == Some(Selection(true, false, true))
    ensures PhraseLines(p, Selection(true, false, true), env, fmt, fuel)
         == BTCLines(p, "BTC", BTCVariants, env, fmt, fuel) + ETHLines(p, "ETH", false, env, fmt)
  {
    assert ToLower("default") == "default";
  }
}
