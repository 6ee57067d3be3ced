/** `LookupETH` (eth.go): derives the wallet's first Ethereum address (m/44H/60H/0H/0/0), asks
    etherscan for its transaction list, its balance (only when it has transactions) and its
    ERC20 transfers, and nets the transfers per token ticker. */
module Eth {
  import opened Base
  import opened HDKeys
  import opened Records
  import opened Numbers

  /** The etherscan host of the main network or of the Ropsten test network. */
  function EthDomain(isTestnet: bool): string
  {
    if isTestnet then "api-ropsten" else "api"
  }

  function EthUrl(domain: string, action: string, address: string): string
  {
    "https://" + domain + ".etherscan.io/api?module=account&action=" + action + "&address=" + address
  }

  /** The address bytes of an uncompressed public key: the last 20 bytes of the Keccak-256
      digest of X || Y (the key without its format byte). */
  function EthAddressBytes(pub: PubKeyBytes, env: Env): (b: seq<byte>)
    ensures |b| == 20
  {
    env.keccak256(pub[1..])[12..]
  }

  /** The address depends on the two coordinates only: keys that differ in the format byte
      alone give the same address bytes. */
  lemma AddressIgnoresFormatByte(pub1: PubKeyBytes, pub2: PubKeyBytes, env: Env)
    requires pub1[1..] == pub2[1..]
    ensures EthAddressBytes(pub1, env) == EthAddressBytes(pub2, env)
  {
  }

  // ---- Reply status rules ----

  /** A txlist reply is usable when its status is "1", or when etherscan says the address
      simply has no transactions. */
  predicate TxListAccepted(r: EthTxList)
  {
    r.status == "1" || r.message == "No transactions found"
  }

  predicate BalanceAccepted(r: EthBalance)
  {
    r.status == "1"
  }

  predicate TokenTxAccepted(r: EthTokenTx)
  {
    r.status == "1"
  }

  // ---- ERC20 netting ----

  /** The netting loop's state: the wallet's token list and the ticker -> index map. */
  datatype NetState = NetState(tokens: seq<Token>, txlist: map<string, int>)

  const EmptyNet: NetState := NetState([], map[])

  /** The map indexes the token list exactly: every ticker in it points at the entry for that
      ticker, and every entry's ticker points back at it. */
  predicate NetInv(s: NetState)
  {
    && (forall t :: t in s.txlist ==> 0 <= s.txlist[t] < |s.tokens| && s.tokens[s.txlist[t]].ticker == t)
    && (forall i :: 0 <= i < |s.tokens| ==> s.tokens[i].ticker in s.txlist && s.txlist[s.tokens[i].ticker] == i)
  }

  /** A transfer's amount as snipEth reads it with the token's decimals, and those decimals;
      a decimal that is not an int64 or a value that does not parse is the transfer's error. */
  function Amounts(v: TokenTransfer): (r: Result<(real, int)>)
    ensures r.Success? ==> MinInt64 <= r.value.1 <= MaxInt64 && Atoi(v.decimal) == Success(r.value.1)
  {
    var dec :- Atoi(v.decimal);
    var (val, e) := SnipEth(v.value, dec);
    if e.Some? then Failure(e.value) else Success((val, dec))
  }

  /** `val / float64(10^dec)` when dec > 0 (Go XOR), the value itself otherwise. */
  function Scale(val: real, dec: int): Amount
    requires dec <= MaxInt64
  {
    if dec > 0 then DivAmount(val, Xor10(dec)) else Finite(val)
  }

  /** Scaling leaves the value alone when the decimals are not positive, and gives a
      finite amount for every positive decimal count except ten, where the divisor is zero. */
  lemma ScaleFiniteUnlessTen(val: real, dec: int)
    requires dec <= MaxInt64
    ensures dec <= 0 ==> Scale(val, dec) == Finite(val)
    ensures dec > 0 ==> (Scale(val, dec).Finite? <==> dec != 10)
  {
    if dec > 0 {
      Xor10ZeroExactlyAtTen(dec);
    }
  }

  /** What one transfer adds to its token: the amount, negated when the transfer does not go
      to the wallet, then scaled. */
  function Credit(v: TokenTransfer, wallet: string): Result<Amount>
  {
    var a :- Amounts(v);
    Success(Scale(if v.to != wallet then -a.0 else a.0, a.1))
  }

  function Credited(t: Token, c: Amount): Token
  {
    t.(balance := AddAmount(t.balance, c), txCount := t.txCount + 1)
  }

  /** A token credited with a run of amounts, one after another. */
  function CreditAll(t: Token, cs: seq<Amount>): Token
  {
    if cs == [] then t else Credited(CreditAll(t, cs[..|cs| - 1]), cs[|cs| - 1])
  }

  predicate AllFinite(cs: seq<Amount>)
  {
    forall i :: 0 <= i < |cs| ==> cs[i].Finite?
  }

  /** The exact sum of finite amounts. */
  function RealTotal(cs: seq<Amount>): real
    requires AllFinite(cs)
  {
    if cs == [] then 0.0 else RealTotal(cs[..|cs| - 1]) + cs[|cs| - 1].value
  }

  /** The `Balance +=` and `TxCount++` of a token: after a run of credits the count has grown
      by their number, and the balance is the starting balance plus the real sum of the
      credits while all of them are finite, and non-finite as soon as one is not. */
  lemma {:induction false} CreditsAddUp(t: Token, cs: seq<Amount>)
    ensures var r := CreditAll(t, cs);
      && r.name == t.name && r.ticker == t.ticker && r.address == t.address
      && r.txCount == t.txCount + |cs|
      && (t.balance.Finite? && AllFinite(cs) ==> r.balance == Finite(t.balance.value + RealTotal(cs)))
      && (!(t.balance.Finite? && AllFinite(cs)) ==> r.balance == NonFinite)
    decreases |cs|
  {
    if cs != [] {
      var init := cs[..|cs| - 1];
      CreditsAddUp(t, init);
      if AllFinite(cs) {
        assert forall i :: 0 <= i < |init| ==> init[i] == cs[i];
        assert AllFinite(init);
      } else if AllFinite(init) {
        assert forall i :: 0 <= i < |init| ==> init[i] == cs[i];
        assert !cs[|cs| - 1].Finite?;
      }
    }
  }

  function NewToken(v: TokenTransfer): Token
  {
    Token(v.name, v.ticker, v.contract, Finite(0.0), 0)
  }

  /** One pass of the transfer loop. A transfer with an empty ticker is skipped. A ticker
      not seen before gets a new entry at the end of the list, but `idx` keeps the map's zero
      value, so the transfer itself is credited to entry 0. */
  function NetStep(s: NetState, v: TokenTransfer, wallet: string): (r: (NetState, Option<Error>))
    requires NetInv(s)
    ensures NetInv(r.0)
  {
    if v.ticker == "" then (s, None)
    else
      var seen := v.ticker in s.txlist;
      var idx := if seen then s.txlist[v.ticker] else 0;
      var s1 := if seen then s else NetState(s.tokens + [NewToken(v)], s.txlist[v.ticker := |s.tokens|]);
      assert NetInv(s1) by { if !seen { AppendKeepsInv(s, NewToken(v)); } }
      match Credit(v, wallet)
      case Failure(e) => (s1, Some(e))
      case Success(c) =>
        var s2 := NetState(s1.tokens[idx := Credited(s1.tokens[idx], c)], s1.txlist);
        assert NetInv(s2) by { assert forall i :: 0 <= i < |s2.tokens| ==> s2.tokens[i].ticker == s1.tokens[i].ticker; }
        (s2, None)
  }

  lemma AppendKeepsInv(s: NetState, t: Token)
    requires NetInv(s) && t.ticker !in s.txlist
    ensures NetInv(NetState(s.tokens + [t], s.txlist[t.ticker := |s.tokens|]))
  {
    var s1 := NetState(s.tokens + [t], s.txlist[t.ticker := |s.tokens|]);
    forall i | 0 <= i < |s1.tokens|
      ensures s1.tokens[i].ticker in s1.txlist && s1.txlist[s1.tokens[i].ticker] == i
    {
      if i < |s.tokens| {
        assert s1.tokens[i] == s.tokens[i];
      }
    }
  }

  /** The transfer loop over a list of transfers; it stops at the first transfer whose
      decimal or value does not parse. */
  function NetAll(s0: NetState, ts: seq<TokenTransfer>, wallet: string): (r: (NetState, Option<Error>))
    requires NetInv(s0)
    ensures NetInv(r.0)
    decreases |ts|
  {
    if ts == [] then (s0, None)
    else
      var (s, e) := NetAll(s0, ts[..|ts| - 1], wallet);
      if e.Some? then (s, e) else NetStep(s, ts[|ts| - 1], wallet)
  }

  /** The first transfer of every distinct non-empty ticker, in order. */
  function FirstSeen(ts: seq<TokenTransfer>): seq<TokenTransfer>
  {
    if ts == [] then []
    else
      var prev := FirstSeen(ts[..|ts| - 1]);
      var v := ts[|ts| - 1];
      if v.ticker == "" || v.ticker in TransferTickers(prev) then prev else prev + [v]
  }

  function TransferTickers(ts: seq<TokenTransfer>): (r: seq<string>)
    ensures |r| == |ts| && forall i :: 0 <= i < |ts| ==> r[i] == ts[i].ticker
  {
    seq(|ts|, i requires 0 <= i < |ts| => ts[i].ticker)
  }

  /** How many transfers carry a ticker. */
  function Ticked(ts: seq<TokenTransfer>): nat
  {
    if ts == [] then 0 else Ticked(ts[..|ts| - 1]) + (if ts[|ts| - 1].ticker != "" then 1 else 0)
  }

  function TotalCount(toks: seq<Token>): int
  {
    if toks == [] then 0 else TotalCount(toks[..|toks| - 1]) + toks[|toks| - 1].txCount
  }

  // ---- What one transfer does ----

  /** A transfer without a ticker changes nothing and is no error. */
  lemma EmptyTickerSkipped(s: NetState, v: TokenTransfer, wallet: string)
    requires NetInv(s) && v.ticker == ""
    ensures NetStep(s, v, wallet) == (s, None)
  {
  }

  /** The credit fails exactly when the decimal is not an int64 or the value does not parse,
      with that error. */
  lemma CreditFailsOnBadNumbers(v: TokenTransfer, wallet: string)
    ensures Atoi(v.decimal).Failure? ==> Credit(v, wallet) == Failure(Atoi(v.decimal).error)
    ensures Atoi(v.decimal).Success? ==>
      (Credit(v, wallet).Failure? <==> SnipEth(v.value, Atoi(v.decimal).value).1.Some?)
    ensures Atoi(v.decimal).Success? && SnipEth(v.value, Atoi(v.decimal).value).1.Some? ==>
      Credit(v, wallet) == Failure(SnipEth(v.value, Atoi(v.decimal).value).1.value)
  {
  }

  /** A transfer sent from the wallet counts with the opposite sign of the same transfer
      received by it. */
  lemma CreditSignFlips(v: TokenTransfer, wallet: string, other: string)
    requires other != wallet && Credit(v, wallet).Success?
    ensures var inc := Credit(v.(to := wallet), wallet); var out := Credit(v.(to := other), wallet);
      && inc.Success? && out.Success?
      && (inc.value.Finite? <==> out.value.Finite?)
      && (inc.value.Finite? ==> out.value.value == -inc.value.value)
  {
    var a := Amounts(v).value;
    assert Amounts(v.(to := wallet)) == Amounts(v) == Amounts(v.(to := other));
    assert Credit(v.(to := wallet), wallet) == Success(Scale(a.0, a.1));
    assert Credit(v.(to := other), wallet) == Success(Scale(-a.0, a.1));
    ScaleNegates(a.0, a.1);
  }

  lemma ScaleNegates(val: real, dec: int)
    requires dec <= MaxInt64
    ensures Scale(-val, dec).Finite? <==> Scale(val, dec).Finite?
    ensures Scale(val, dec).Finite? ==> Scale(-val, dec).value == -Scale(val, dec).value
  {
    if dec > 0 {
      DivNegates(val, Xor10(dec));
    }
  }

  lemma DivNegates(val: real, d: int)
    ensures DivAmount(-val, d).Finite? <==> DivAmount(val, d).Finite?
    ensures d != 0 ==> DivAmount(-val, d).value == -DivAmount(val, d).value
  {
    if d != 0 {
      var q := val / d as real;
      assert q * d as real == val;
      assert (-q) * d as real == -val;
    }
  }

  /** A transfer of an already seen ticker is credited to that ticker's entry, and to no
      other; the list keeps its length. */
  lemma SeenTickerCreditsItsEntry(s: NetState, v: TokenTransfer, wallet: string)
    requires NetInv(s) && v.ticker != "" && v.ticker in s.txlist && Credit(v, wallet).Success?
    ensures var (s', e) := NetStep(s, v, wallet); var k := s.txlist[v.ticker];
      && e.None?
      && |s'.tokens| == |s.tokens|
      && s'.tokens[k].ticker == v.ticker
      && s'.tokens[k] == Credited(s.tokens[k], Credit(v, wallet).value)
      && (forall j :: 0 <= j < |s.tokens| && j != k ==> s'.tokens[j] == s.tokens[j])
  {
  }

  /** The first transfer of a new ticker appends an entry named after it, but the transfer
      is credited to entry 0: the new entry keeps a zero balance and a zero count unless it
      is the first entry of all. */
  lemma NewTickerCreditsFirstEntry(s: NetState, v: TokenTransfer, wallet: string)
    requires NetInv(s) && v.ticker != "" && v.ticker !in s.txlist && Credit(v, wallet).Success?
    ensures var (s', e) := NetStep(s, v, wallet); var n := |s.tokens|; var c := Credit(v, wallet).value;
      && e.None?
      && |s'.tokens| == n + 1
      && s'.txlist == s.txlist[v.ticker := n]
      && s'.tokens[n].ticker == v.ticker && s'.tokens[n].name == v.name && s'.tokens[n].address == v.contract
      && (n == 0 ==> s'.tokens[0] == Credited(NewToken(v), c))
      && (n > 0 ==> s'.tokens[n] == NewToken(v) && s'.tokens[0] == Credited(s.tokens[0], c)
                    && forall j :: 0 < j < n ==> s'.tokens[j] == s.tokens[j])
  {
  }

  /** A transfer whose numbers do not parse ends the loop with that error, after its new
      entry (if any) has been appended; no balance or count changes. */
  lemma FailedTransferKeepsNewEntry(s: NetState, v: TokenTransfer, wallet: string)
    requires NetInv(s) && v.ticker != "" && Credit(v, wallet).Failure?
    ensures var (s', e) := NetStep(s, v, wallet);
      && e == Some(Credit(v, wallet).error)
      && s'.tokens == (if v.ticker in s.txlist then s.tokens else s.tokens + [NewToken(v)])
  {
  }

  // ---- What the whole loop does ----

  /** Once a transfer fails, later transfers are never looked at. */
  lemma {:induction false} NetAllStopsAtError(ts: seq<TokenTransfer>, i: nat, wallet: string)
    requires i < |ts| && NetAll(EmptyNet, ts[..i + 1], wallet).1.Some?
    ensures NetAll(EmptyNet, ts, wallet) == NetAll(EmptyNet, ts[..i + 1], wallet)
    decreases |ts|
  {
    if |ts| > i + 1 {
      var init := ts[..|ts| - 1];
      assert init[..i + 1] == ts[..i + 1];
      NetAllStopsAtError(init, i, wallet);
    } else {
      assert ts[..i + 1] == ts;
    }
  }

  lemma NetAllSnoc(ts: seq<TokenTransfer>, i: nat, wallet: string)
    requires i < |ts| && NetAll(EmptyNet, ts[..i], wallet).1.None?
    ensures NetAll(EmptyNet, ts[..i + 1], wallet) == NetStep(NetAll(EmptyNet, ts[..i], wallet).0, ts[i], wallet)
  {
    assert ts[..i + 1][..i] == ts[..i];
  }

  /** Without an error, the token list holds one entry per distinct ticker, in order of first
      appearance, with the name and contract address of that first transfer. */
  lemma {:induction false} NetTokensFollowFirstSeen(ts: seq<TokenTransfer>, wallet: string)
    requires NetAll(EmptyNet, ts, wallet).1.None?
    ensures SameHeads(NetAll(EmptyNet, ts, wallet).0.tokens, FirstSeen(ts))
    decreases |ts|
  {
    if ts != [] {
      var init := ts[..|ts| - 1];
      var v := ts[|ts| - 1];
      var r0 := NetAll(EmptyNet, init, wallet);
      assert NetAll(EmptyNet, ts, wallet) == (if r0.1.Some? then r0 else NetStep(r0.0, v, wallet));
      NetTokensFollowFirstSeen(init, wallet);
      var s := r0.0;
      var prev := FirstSeen(init);
      assert v.ticker in s.txlist <==> v.ticker in TransferTickers(prev) by {
        if v.ticker in s.txlist {
          var k := s.txlist[v.ticker];
          assert TransferTickers(prev)[k] == v.ticker;
        }
        if v.ticker in TransferTickers(prev) {
          var k :| 0 <= k < |prev| && TransferTickers(prev)[k] == v.ticker;
          assert s.tokens[k].ticker == v.ticker;
        }
      }
      StepHeads(s, v, wallet, prev);
    }
  }

  /** The token list matches a list of transfers entry by entry in ticker, name and contract. */
  predicate SameHeads(toks: seq<Token>, first: seq<TokenTransfer>)
  {
    && |toks| == |first|
    && forall i :: 0 <= i < |toks| ==>
         toks[i].ticker == first[i].ticker && toks[i].name == first[i].name && toks[i].address == first[i].contract
  }

  lemma StepHeads(s: NetState, v: TokenTransfer, wallet: string, first: seq<TokenTransfer>)
    requires NetInv(s) && SameHeads(s.tokens, first) && NetStep(s, v, wallet).1.None?
    ensures SameHeads(NetStep(s, v, wallet).0.tokens,
                      if v.ticker == "" || v.ticker in s.txlist then first else first + [v])
  {
    if v.ticker != "" {
      var seen := v.ticker in s.txlist;
      var idx := if seen then s.txlist[v.ticker] else 0;
      var s1 := if seen then s else NetState(s.tokens + [NewToken(v)], s.txlist[v.ticker := |s.tokens|]);
      var first1 := if seen then first else first + [v];
      assert SameHeads(s1.tokens, first1);
      NetStepIs(s, v, wallet, s1, idx);
      var toks := s1.tokens[idx := Credited(s1.tokens[idx], Credit(v, wallet).value)];
      forall i | 0 <= i < |toks|
        ensures toks[i].ticker == first1[i].ticker && toks[i].name == first1[i].name && toks[i].address == first1[i].contract
      {
        assert toks[i].ticker == s1.tokens[i].ticker && toks[i].name == s1.tokens[i].name && toks[i].address == s1.tokens[i].address;
      }
      assert SameHeads(toks, first1);
    }
  }

  /** The tickers of the token list are distinct. */
  lemma TickersDistinct(s: NetState)
    requires NetInv(s)
    ensures forall i, j :: 0 <= i < j < |s.tokens| ==> s.tokens[i].ticker != s.tokens[j].ticker
  {
  }

  /** The loop processes the transfers before the first failing one (all of them when none
      fails); the counts add up to the number of those that carry a ticker, and the error is
      the failing transfer's. */
  lemma {:induction false} NetCountsProcessed(ts: seq<TokenTransfer>, wallet: string) returns (k: nat)
    ensures var (s, e) := NetAll(EmptyNet, ts, wallet);
      && k <= |ts|
      && NetAll(EmptyNet, ts[..k], wallet).1.None?
      && TotalCount(s.tokens) == Ticked(ts[..k])
      && (e.None? <==> k == |ts|)
      && (e.Some? ==> e == NetStep(NetAll(EmptyNet, ts[..k], wallet).0, ts[k], wallet).1)
    decreases |ts|
  {
    if ts == [] {
      return 0;
    }
    var init := ts[..|ts| - 1];
    var v := ts[|ts| - 1];
    k := NetCountsProcessed(init, wallet);
    assert init[..k] == ts[..k];
    var r0 := NetAll(EmptyNet, init, wallet);
    assert NetAll(EmptyNet, ts, wallet) == (if r0.1.Some? then r0 else NetStep(r0.0, v, wallet));
    if r0.1.None? {
      assert k == |init| && ts[..k] == init;
      StepCount(r0.0, v, wallet);
      assert Ticked(ts) == Ticked(init) + (if v.ticker != "" then 1 else 0);
      if NetStep(r0.0, v, wallet).1.None? {
        assert ts[..|ts|] == ts;
        k := |ts|;
      }
    }
  }

  /** One transfer adds one to the counts when it carries a ticker and is credited, and
      nothing otherwise. */
  lemma StepCount(s: NetState, v: TokenTransfer, wallet: string)
    requires NetInv(s)
    ensures var (s', e) := NetStep(s, v, wallet);
      TotalCount(s'.tokens) == TotalCount(s.tokens) + (if e.None? && v.ticker != "" then 1 else 0)
  {
    if v.ticker != "" {
      var seen := v.ticker in s.txlist;
      var s1 := if seen then s else NetState(s.tokens + [NewToken(v)], s.txlist[v.ticker := |s.tokens|]);
      if !seen {
        assert (s.tokens + [NewToken(v)])[..|s.tokens|] == s.tokens;
      }
      if Credit(v, wallet).Success? {
        var idx := if seen then s.txlist[v.ticker] else 0;
        CountUpdate(s1.tokens, idx, Credited(s1.tokens[idx], Credit(v, wallet).value));
      }
    }
  }

  lemma {:induction false} CountUpdate(toks: seq<Token>, i: nat, t: Token)
    requires i < |toks|
    ensures TotalCount(toks[i := t]) == TotalCount(toks) - toks[i].txCount + t.txCount
    decreases |toks|
  {
    var last := |toks| - 1;
    if i < last {
      assert toks[i := t][..last] == toks[..last][i := t];
      CountUpdate(toks[..last], i, t);
    } else {
      assert toks[i := t][..last] == toks[..last];
    }
  }

  // ---- Concrete runs ----

  /** Two incoming transfers of two new tickers: both amounts end up on the first token,
      and the second token's entry stays at zero. */
  lemma SecondTickerCreditedToFirst()
    ensures NetAll(EmptyNet, [TokenTransfer("0xa", "0xw", "5", "Alpha", "A", "0", "h1"),
                              TokenTransfer("0xb", "0xw", "7", "Beta", "B", "0", "h2")], "0xw").0.tokens
         == [Token("Alpha", "A", "0xa", Finite(12.0), 2), Token("Beta", "B", "0xb", Finite(0.0), 0)]
  {
    var t1 := TokenTransfer("0xa", "0xw", "5", "Alpha", "A", "0", "h1");
    var t2 := TokenTransfer("0xb", "0xw", "7", "Beta", "B", "0", "h2");
    var ts := [t1, t2];
    assert ts[..1] == [t1];
    assert [t1][..0] == [];
    assert Atoi("0") == Success(0);
    assert ParseSigned("5") == Some(5) && ParseSigned("7") == Some(7);
    assert Credit(t1, "0xw") == Success(Finite(5.0));
    assert Credit(t2, "0xw") == Success(Finite(7.0));
  }

  /** 1.00 of a token with 2 decimals is reported as 0.125: snipEth gives 1, and `10^2` is
      8 in Go, not 100. */
  lemma TwoDecimalsDividedByEight()
    ensures Credit(TokenTransfer("0xc", "0xw", "100", "Tok", "TOK", "2", "h"), "0xw") == Success(Finite(0.125))
  {
    assert Atoi("2") == Success(2);
    assert AllDigits("100") && DigitsValue("100") == 100 by {
      assert "100"[..2] == "10" && "10"[..1] == "1" && "1"[..0] == "";
    }
    assert SnipEth("100", 2) == (1.0, None);
    Xor10Samples();
  }

  /** A token with 10 decimals divides by `10^10`, which is 0: the balance is no longer a
      finite number. */
  lemma TenDecimalsDivideByZero(v: TokenTransfer, wallet: string)
    requires v.decimal == "10" && Credit(v, wallet).Success?
    ensures Credit(v, wallet) == Success(NonFinite)
  {
    assert Atoi("10") == Success(10) by {
      assert "10"[..1] == "1" && "1"[..0] == "";
    }
    Xor10ZeroExactlyAtTen(10);
    assert Amounts(v).value.1 == 10;
  }

  // ---- The etherscan calls on values ----

  /** LookupETH on values: no record when the key derivation or the public key fails,
      otherwise the one wallet record and the error of the first stage that failed. */
  function ETHSpec(p: Phrase, isTestnet: bool, env: Env): (r: (seq<AddressRecord>, Option<Error>))
    ensures |r.0| <= 1
    ensures r.0 == [] ==> r.1.Some?
  {
    match DeriveHDKey(p.xprv, 44, 60, 0, 0, 0, env.derive)
    case Failure(e) => ([], Some(e))
    case Success(key) =>
      match env.ecPubKey(key)
      case Failure(e) => ([], Some(e))
      case Success(pub) =>
        var addr := env.addressString(EthAddressBytes(pub, env));
        var (rec, err) := EthRecord(AddressRecord(addr, 0, 0.0, isTestnet, []), EthDomain(isTestnet), env);
        ([rec], err)
  }

  /** The txlist call and, when it is accepted, the balance and token stages. */
  function EthRecord(rec: AddressRecord, domain: string, env: Env): (r: (AddressRecord, Option<Error>))
    ensures r.0.address == rec.address && r.0.isTest == rec.isTest
  {
    match env.etherscanTxList(EthUrl(domain, "txlist", rec.address))
    case Failure(e) => (rec, Some(e))
    case Success(act) =>
      if !TxListAccepted(act) then (rec, Some(EtherscanError(act.message)))
      else
        var (rec1, e1) := EthBalanceStage(rec.(txCount := |act.result|), domain, env);
        if e1.Some? then (rec1, e1) else EthTokenStage(rec1, domain, env)
  }

  /** The balance call, made only for an address with transactions. */
  function EthBalanceStage(rec: AddressRecord, domain: string, env: Env): (r: (AddressRecord, Option<Error>))
    ensures r.0 == rec.(balance := r.0.balance)
  {
    if rec.txCount <= 0 then (rec, None)
    else
      match env.etherscanBalance(EthUrl(domain, "balance", rec.address))
      case Failure(e) => (rec, Some(e))
      case Success(bal) =>
        if !BalanceAccepted(bal) then (rec, Some(EtherscanError(bal.message)))
        else
          var (b, e) := SnipEth(bal.result, 18);
          (rec.(balance := b), e)
  }

  /** The tokentx call and the netting of its transfers against the lower-cased address. */
  function EthTokenStage(rec: AddressRecord, domain: string, env: Env): (r: (AddressRecord, Option<Error>))
    ensures r.0 == rec.(tokens := r.0.tokens)
  {
    match env.etherscanTokenTx(EthUrl(domain, "tokentx", rec.address))
    case Failure(e) => (rec, Some(e))
    case Success(tok) =>
      if !TokenTxAccepted(tok) then (rec, None)
      else
        var (s, e) := NetAll(EmptyNet, tok.result, ToLower(rec.address));
        (rec.(tokens := s.tokens), e)
  }

  /** The key is the one at m/44H/60H/0H/0/0. */
  lemma EthKeyPath(xprv: ExtendedKey, derive: Deriver)
    ensures DeriveHDKey(xprv, 44, 60, 0, 0, 0, derive)
         == DerivePath(xprv, [0x8000_002C, 0x8000_003C, 0x8000_0000, 0, 0], derive)
  {
    DeriveHDKeyWalksPath(xprv, 44, 60, 0, 0, 0, derive);
    assert HDPath(44, 60, 0, 0, 0) == [0x8000_002C, 0x8000_003C, 0x8000_0000, 0, 0];
  }

  /** At most one record comes back; none exactly when the key or the public key cannot be
      had, and then with that error. The record is the wallet address, marked as a test
      address on the test network. */
  lemma ETHSpecShape(p: Phrase, isTestnet: bool, env: Env)
    ensures var (recs, err) := ETHSpec(p, isTestnet, env);
      var key := DeriveHDKey(p.xprv, 44, 60, 0, 0, 0, env.derive);
      && |recs| <= 1
      && (key.Failure? ==> recs == [] && err == Some(key.error))
      && (key.Success? && env.ecPubKey(key.value).Failure? ==> recs == [] && err == Some(env.ecPubKey(key.value).error))
      && (key.Success? && env.ecPubKey(key.value).Success? ==>
            |recs| == 1 && recs[0].isTest == isTestnet &&
            recs[0].address == env.addressString(EthAddressBytes(env.ecPubKey(key.value).value, env)))
  {
  }

  /** The txlist reply is an error exactly when its status is not "1" and its message is not
      "No transactions found"; the record is then untouched. Otherwise the count is the number
      of transactions listed. */
  lemma TxListRule(rec: AddressRecord, domain: string, env: Env)
    requires env.etherscanTxList(EthUrl(domain, "txlist", rec.address)).Success?
    ensures var act := env.etherscanTxList(EthUrl(domain, "txlist", rec.address)).value;
      var (r, e) := EthRecord(rec, domain, env);
      && (!TxListAccepted(act) <==> act.status != "1" && act.message != "No transactions found")
      && (!TxListAccepted(act) ==> r == rec && e == Some(EtherscanError(act.message)))
      && (TxListAccepted(act) ==> r.txCount == |act.result| && r.address == rec.address && r.isTest == rec.isTest)
  {
  }

  /** With no transactions the balance is never asked for: the result does not depend on
      the balance call, and the balance stays 0. */
  lemma NoBalanceCallWithoutTransactions(rec: AddressRecord, domain: string, env: Env, other: string -> Result<EthBalance>)
    requires rec.txCount == 0
    ensures EthBalanceStage(rec, domain, env) == (rec, None)
    ensures EthBalanceStage(rec, domain, env) == EthBalanceStage(rec, domain, env.(etherscanBalance := other))
  {
  }

  /** With transactions, a balance reply whose status is not "1" is an error leaving the
      balance at 0; an accepted one sets the balance to snipEth of the result with 18
      decimals. */
  lemma BalanceRule(rec: AddressRecord, domain: string, env: Env)
    requires rec.txCount > 0
    requires env.etherscanBalance(EthUrl(domain, "balance", rec.address)).Success?
    ensures var bal := env.etherscanBalance(EthUrl(domain, "balance", rec.address)).value;
      var (r, e) := EthBalanceStage(rec, domain, env);
      && (bal.status != "1" ==> r == rec && e == Some(EtherscanError(bal.message)))
      && (bal.status == "1" ==> r == rec.(balance := SnipEth(bal.result, 18).0) && e == SnipEth(bal.result, 18).1)
  {
  }

  /** A tokentx reply whose status is not "1" (etherscan's answer for an address without
      transfers) leaves the record, and so its empty token list, as it was, and is no error. */
  lemma TokenTxNotOneLeavesNoTokens(rec: AddressRecord, domain: string, env: Env)
    requires env.etherscanTokenTx(EthUrl(domain, "tokentx", rec.address)).Success?
    requires env.etherscanTokenTx(EthUrl(domain, "tokentx", rec.address)).value.status != "1"
    ensures EthTokenStage(rec, domain, env) == (rec, None)
  {
  }

  // ---- The method ----

  /** `LookupETH`. */
  method LookupETH(p: Phrase, isTestnet: bool, env: Env) returns (addresses: seq<Address>, err: Option<Error>)
    ensures (Views(addresses), err) == ETHSpec(p, isTestnet, env)
    ensures forall i :: 0 <= i < |addresses| ==> fresh(addresses[i])
  {
    var ethxpub := DeriveHDKey(p.xprv, 44, 60, 0, 0, 0, env.derive);
    if ethxpub.Failure? {
      return [], Some(ethxpub.error);
    }
    var ethkey := env.ecPubKey(ethxpub.value);
    if ethkey.Failure? {
      return [], Some(ethkey.error);
    }
    var pubBytes := ethkey.value;
    var ethadd := env.addressString(env.keccak256(pubBytes[1..])[12..]);
    var a := new Address(ethadd);
    a.isTest := isTestnet;
    addresses := [a];
    var domain := "api";
    if isTestnet {
      domain := "api-ropsten";
    }
    assert a.View() == AddressRecord(ethadd, 0, 0.0, isTestnet, []);
    err := FillEth(a, domain, env);
    assert Views(addresses) == [a.View()];
  }

  /** The three etherscan calls of LookupETH on the wallet's Address. */
  method FillEth(a: Address, domain: string, env: Env) returns (err: Option<Error>)
    requires a.tokens == [] && a.txCount == 0 && a.balance == 0.0
    modifies a
    ensures (a.View(), err) == EthRecord(old(a.View()), domain, env)
  {
    var ethact := env.etherscanTxList(EthUrl(domain, "txlist", a.address));
    if ethact.Failure? {
      return Some(ethact.error);
    }
    if ethact.value.status != "1" && ethact.value.message != "No transactions found" {
      return Some(EtherscanError(ethact.value.message));
    }
    a.txCount := |ethact.value.result|;
    if |ethact.value.result| > 0 {
      var ethbal := env.etherscanBalance(EthUrl(domain, "balance", a.address));
      if ethbal.Failure? {
        return Some(ethbal.error);
      }
      if ethbal.value.status != "1" {
        return Some(EtherscanError(ethbal.value.message));
      }
      var (b, e) := SnipEth(ethbal.value.result, 18);
      a.balance := b;
      if e.Some? {
        return e;
      }
    }
    var erc20bal := env.etherscanTokenTx(EthUrl(domain, "tokentx", a.address));
    if erc20bal.Failure? {
      return Some(erc20bal.error);
    }
    if erc20bal.value.status != "1" {
      return None;
    }
    err := NetTransfers(a, erc20bal.value.result);
  }

  /** The ERC20 loop: nets every transfer into the Address's token list. */
  method NetTransfers(a: Address, transfers: seq<TokenTransfer>) returns (err: Option<Error>)
    requires a.tokens == []
    modifies a
    ensures (a.View().(tokens := []), err) == (old(a.View()), NetAll(EmptyNet, transfers, ToLower(a.address)).1)
    ensures a.tokens == NetAll(EmptyNet, transfers, ToLower(a.address)).0.tokens
  {
    ghost var wallet := ToLower(a.address);
    var txlist: map<string, int> := map[];
    var i := 0;
    while i < |transfers|
      invariant 0 <= i <= |transfers|
      invariant NetAll(EmptyNet, transfers[..i], wallet) == (NetState(a.tokens, txlist), None)
      invariant a.View().(tokens := []) == old(a.View())
    {
      NetAllSnoc(transfers, i, wallet);
      txlist, err := NetOne(a, txlist, transfers[i]);
      assert NetAll(EmptyNet, transfers[..i + 1], wallet) == (NetState(a.tokens, txlist), err);
      if err.Some? {
        NetAllStopsAtError(transfers, i, wallet);
        return;
      }
      i := i + 1;
    }
    assert transfers[..i] == transfers;
    return None;
  }

  /** One pass of the ERC20 loop. */
  method NetOne(a: Address, txlistIn: map<string, int>, v: TokenTransfer) returns (txlist: map<string, int>, err: Option<Error>)
    requires NetInv(NetState(a.tokens, txlistIn))
    modifies a
    ensures var (s', e) := NetStep(NetState(old(a.tokens), txlistIn), v, ToLower(a.address));
      NetState(a.tokens, txlist) == s' && err == e
    ensures a.View().(tokens := old(a.tokens)) == old(a.View())
  {
    ghost var s := NetState(a.tokens, txlistIn);
    ghost var wallet := ToLower(a.address);
    txlist := txlistIn;
    if v.ticker == "" {
      EmptyTickerSkipped(s, v, wallet);
      return txlist, None;
    }
    var seen := v.ticker in txlist;
    var idx := if seen then txlist[v.ticker] else 0;
    if !seen {
      // a new ticker: remember where its entry goes, then append it
      txlist := txlist[v.ticker := |a.tokens|];
      a.tokens := a.tokens + [Token(v.name, v.ticker, v.contract, Finite(0.0), 0)];
    }
    ghost var s1 := NetState(a.tokens, txlist);
    NetStepIs(s, v, wallet, s1, idx);
    var nicebal, e := TransferAmount(v, ToLower(a.address));
    if e.Some? {
      return txlist, e;
    }
    var tok := a.tokens[idx];
    tok := tok.(balance := AddAmount(tok.balance, nicebal));
    tok := tok.(txCount := tok.txCount + 1);
    assert tok == Credited(s1.tokens[idx], nicebal);
    a.tokens := a.tokens[idx := tok];
    return txlist, None;
  }

  /** The numbers part of one pass: parse the decimals, snip the value, fix its sign and
      scale it. */
  method TransferAmount(v: TokenTransfer, wallet: string) returns (nicebal: Amount, err: Option<Error>)
    ensures err.None? <==> Credit(v, wallet).Success?
    ensures err.None? ==> Credit(v, wallet) == Success(nicebal)
    ensures err.Some? ==> Credit(v, wallet) == Failure(err.value)
  {
    nicebal := Finite(0.0);
    var dec := Atoi(v.decimal);
    if dec.Failure? {
      return nicebal, Some(dec.error);
    }
    var (val0, e) := SnipEth(v.value, dec.value);
    if e.Some? {
      return nicebal, e;
    }
    var val := val0;
    if v.to != wallet {
      // a send, not a receive
      val := -val;
    }
    nicebal := Finite(val);
    if dec.value > 0 {
      nicebal := DivAmount(val, Xor10(dec.value));
    }
    CreditIs(v, wallet, dec.value, val0);
    return nicebal, None;
  }

  lemma CreditIs(v: TokenTransfer, wallet: string, dec: int, val: real)
    requires Atoi(v.decimal) == Success(dec) && SnipEth(v.value, dec) == (val, None)
    ensures dec <= MaxInt64
    ensures Credit(v, wallet) == Success(Scale(if v.to != wallet then -val else val, dec))
  {
  }

  /** NetStep on a transfer with a ticker, given the list after the possible append and the
      index the transfer is credited to. */
  lemma NetStepIs(s: NetState, v: TokenTransfer, wallet: string, s1: NetState, idx: int)
    requires NetInv(s) && v.ticker != ""
    requires s1 == if v.ticker in s.txlist then s else NetState(s.tokens + [NewToken(v)], s.txlist[v.ticker := |s.tokens|])
    requires idx == if v.ticker in s.txlist then s.txlist[v.ticker] else 0
    ensures 0 <= idx < |s1.tokens|
    ensures Credit(v, wallet).Failure? ==> NetStep(s, v, wallet) == (s1, Some(Credit(v, wallet).error))
    ensures Credit(v, wallet).Success? ==>
      NetStep(s, v, wallet) == (NetState(s1.tokens[idx := Credited(s1.tokens[idx], Credit(v, wallet).value)], s1.txlist), None)
  {
  }
}
