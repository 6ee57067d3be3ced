/** `LookupBTCBal` (phrase.go): walks a wallet's receive chain and then its change chain in
    batches of 50 addresses, until 10 unused addresses in a row have been seen, adding up the
    balances. The counter of unused addresses is shared by both chains and never reset
    between them, so the change chain is never walked. */
module Scanner {
  import opened Base
  import opened HDKeys
  import opened Records
  import opened Bitcoin

  const BatchSize: int := 50
  const GapLimit: int := 10

  datatype Explorer = BlockchainInfo | BTCcom

  /** What a coin flag of LookupBTCBal selects: BIP44 purpose, coin type, network, explorer. */
  datatype Variant = Variant(purpose: uint32, coinType: uint32, testnet: bool, explorer: Explorer)

  /** The seven cases of LookupBTCBal's switch. */
  function VariantOf(coin: string): (v: Option<Variant>)
    ensures v.Some? <==> coin in {"btc32", "btc44", "tbt32", "tbt44", "bch32", "bch440", "bch44145"}
    ensures v.Some? ==> (v.value.explorer == BTCcom <==> coin in {"bch32", "bch440", "bch44145"})
    ensures v.Some? ==> (v.value.testnet <==> coin in {"tbt32", "tbt44"})
    ensures v.Some? ==> (v.value.purpose == 0 <==> coin in {"btc32", "tbt32", "bch32"})
  {
    match coin
    case "btc32" => Some(Variant(0, 0, false, BlockchainInfo))
    case "btc44" => Some(Variant(44, 0, false, BlockchainInfo))
    case "tbt32" => Some(Variant(0, 0, true, BlockchainInfo))
    case "tbt44" => Some(Variant(44, 1, true, BlockchainInfo))
    case "bch32" => Some(Variant(0, 0, false, BTCcom))
    case "bch440" => Some(Variant(44, 0, false, BTCcom))
    case "bch44145" => Some(Variant(44, 145, false, BTCcom))
    case _ => None
  }

  /** One batch on values: derive 50 addresses from `child` on `chain` and look them up. */
  function BatchOf(p: Phrase, v: Variant, chain: uint32, child: uint32, env: Env): (seq<AddressRecord>, Option<Error>)
  {
    var recs := NewRecords(DerivedPrefix(Children(p, v.purpose, v.coinType, chain, v.testnet, env), child, Clamp(BatchSize)));
    match v.explorer
    case BlockchainInfo => LookupBTCSpec(recs, v.testnet, env)
    case BTCcom => LookupBCHSpec(recs, env)
  }

  /** One batch as a function of chain and first child. */
  type Fetch = (uint32, uint32) -> (seq<AddressRecord>, Option<Error>)

  /** The batch function of a coin flag; None for a flag outside the seven cases. */
  function FetcherOf(p: Phrase, coin: string, env: Env): (f: Option<Fetch>)
    ensures f.Some? <==> VariantOf(coin).Some?
  {
    match VariantOf(coin)
    case None => None
    case Some(v) => Some((chain: uint32, child: uint32) => BatchOf(p, v, chain, child, env))
  }

  /** The running totals of the inner loop. */
  datatype Tally = Tally(balance: real, isUsed: bool, skips: int)

  function TallyOne(t: Tally, r: AddressRecord): Tally
  {
    if r.txCount > 0 then Tally(t.balance + r.balance, true, 0)
    else Tally(t.balance + r.balance, t.isUsed, t.skips + 1)
  }

  function TallyAll(t: Tally, recs: seq<AddressRecord>): Tally
  {
    if recs == [] then t else TallyOne(TallyAll(t, recs[..|recs| - 1]), recs[|recs| - 1])
  }

  /** The state LookupBTCBal carries from batch to batch. */
  datatype ScanState = ScanState(balance: real, isUsed: bool, addresses: seq<AddressRecord>, err: Option<Error>, skips: int)

  const Initial: ScanState := ScanState(0.0, false, [], None, 0)

  /** One pass of the `for skips < 10` loop. An unknown coin flag matches no case: nothing
      is derived, looked up or counted, and the error is left as it was. */
  function Step(st: ScanState, fetch: Option<Fetch>, chain: uint32, child: uint32): ScanState
  {
    match fetch
    case None => st
    case Some(f) =>
      var (recs, e) := f(chain, child);
      var t := TallyAll(Tally(st.balance, st.isUsed, st.skips), recs);
      ScanState(t.balance, t.isUsed, st.addresses + recs, e, t.skips)
  }

  /** A batch holds at most BatchSize addresses: fewer when a derivation fails part way. */
  lemma BatchAtMostBatchSize(p: Phrase, v: Variant, chain: uint32, child: uint32, env: Env)
    ensures |BatchOf(p, v, chain, child, env).0| <= BatchSize
  {
  }

  /** A pass appends its batch to the address list and never drops what came before. */
  lemma StepKeepsEarlierAddresses(st: ScanState, fetch: Option<Fetch>, chain: uint32, child: uint32)
    ensures st.addresses <= Step(st, fetch, chain, child).addresses
    ensures fetch.Some? ==> Step(st, fetch, chain, child).addresses == st.addresses + fetch.value(chain, child).0
  {
  }

  /** The `for skips < 10` loop of one chain, from batch start `child`, when it ends within
      `fuel` passes; None when it does not. */
  function RunChain(st: ScanState, fetch: Option<Fetch>, chain: uint32, child: uint32, fuel: nat): Option<ScanState>
    decreases fuel
  {
    if st.skips >= GapLimit then Some(st)
    else if fuel == 0 then None
    else RunChain(Step(st, fetch, chain, child), fetch, chain, Add32(child, BatchSize), fuel - 1)
  }

  /** LookupBTCBal on values: chain 0, then chain 1, each from child 0; None when a chain
      does not end within `fuel` batches. */
  function Scan(p: Phrase, coin: string, env: Env, fuel: nat): Option<ScanState>
  {
    ScanWith(FetcherOf(p, coin, env), fuel)
  }

  function ScanWith(fetch: Option<Fetch>, fuel: nat): Option<ScanState>
  {
    match RunChain(Initial, fetch, 0, 0, fuel)
    case None => None
    case Some(s) => RunChain(s, fetch, 1, 0, fuel)
  }

  // ---- What the scan computes ----

  function SumBalance(recs: seq<AddressRecord>): real
  {
    if recs == [] then 0.0 else SumBalance(recs[..|recs| - 1]) + recs[|recs| - 1].balance
  }

  predicate AnyUsed(recs: seq<AddressRecord>)
  {
    exists i :: 0 <= i < |recs| && recs[i].txCount > 0
  }

  /** How many addresses at the end of the list have no transactions. */
  function TrailingUnused(recs: seq<AddressRecord>): (n: nat)
    ensures n <= |recs|
  {
    if recs == [] then 0
    else if recs[|recs| - 1].txCount > 0 then 0
    else TrailingUnused(recs[..|recs| - 1]) + 1
  }

  /** The totals agree with the addresses collected so far. */
  predicate Consistent(st: ScanState)
  {
    st.balance == SumBalance(st.addresses) && st.isUsed == AnyUsed(st.addresses) &&
    st.skips == TrailingUnused(st.addresses)
  }

  /** The inner loop's totals over a batch are the totals over the addresses collected so
      far followed by the batch. */
  lemma {:induction false} TallyAllExtends(prev: seq<AddressRecord>, recs: seq<AddressRecord>)
    ensures TallyAll(Tally(SumBalance(prev), AnyUsed(prev), TrailingUnused(prev)), recs)
         == Tally(SumBalance(prev + recs), AnyUsed(prev + recs), TrailingUnused(prev + recs))
    decreases |recs|
  {
    if recs != [] {
      var init := recs[..|recs| - 1];
      var last := recs[|recs| - 1];
      TallyAllExtends(prev, init);
      var all := prev + recs;
      assert all[..|all| - 1] == prev + init;
      assert all[|all| - 1] == last;
      AnyUsedSnoc(prev + init, last);
      assert prev + init + [last] == all;
    } else {
      assert prev + recs == prev;
    }
  }

  lemma AnyUsedSnoc(recs: seq<AddressRecord>, r: AddressRecord)
    ensures AnyUsed(recs + [r]) == (AnyUsed(recs) || r.txCount > 0)
  {
    var all := recs + [r];
    if AnyUsed(recs) {
      var i :| 0 <= i < |recs| && recs[i].txCount > 0;
      assert all[i] == recs[i];
    }
    if r.txCount > 0 {
      assert all[|recs|] == r;
    }
    if AnyUsed(all) {
      var i :| 0 <= i < |all| && all[i].txCount > 0;
      if i < |recs| {
        assert all[i] == recs[i];
      } else {
        assert all[i] == r;
      }
    }
  }

  /** Every batch keeps the totals consistent with the addresses. */
  lemma StepConsistent(st: ScanState, fetch: Option<Fetch>, chain: uint32, child: uint32)
    requires Consistent(st)
    ensures Consistent(Step(st, fetch, chain, child))
  {
    if fetch.Some? {
      TallyAllExtends(st.addresses, fetch.value(chain, child).0);
    }
  }

  /** A chain's loop ends only once 10 unused addresses in a row have been seen. */
  lemma {:induction false} RunChainEndsAtGap(st: ScanState, fetch: Option<Fetch>, chain: uint32, child: uint32, fuel: nat)
    requires RunChain(st, fetch, chain, child, fuel).Some?
    ensures RunChain(st, fetch, chain, child, fuel).value.skips >= GapLimit
    decreases fuel
  {
    if st.skips < GapLimit {
      RunChainEndsAtGap(Step(st, fetch, chain, child), fetch, chain, Add32(child, BatchSize), fuel - 1);
    }
  }

  /** The change chain is never walked: the skip counter already stands at 10 when chain 1
      starts, so the scan is exactly the receive chain's loop. */
  lemma ChangeChainNeverScanned(p: Phrase, coin: string, env: Env, fuel: nat)
    ensures Scan(p, coin, env, fuel) == RunChain(Initial, FetcherOf(p, coin, env), 0, 0, fuel)
  {
    var fetch := FetcherOf(p, coin, env);
    if RunChain(Initial, fetch, 0, 0, fuel).Some? {
      RunChainEndsAtGap(Initial, fetch, 0, 0, fuel);
    }
  }

  /** With a coin flag outside the seven cases the loop runs forever. */
  lemma UnknownCoinNeverEnds(p: Phrase, coin: string, env: Env, fuel: nat)
    requires VariantOf(coin).None?
    ensures Scan(p, coin, env, fuel).None?
  {
    NoFetchNeverEnds(0, fuel);
  }

  lemma {:induction false} NoFetchNeverEnds(child: uint32, fuel: nat)
    ensures RunChain(Initial, None, 0, child, fuel).None?
    decreases fuel
  {
    if fuel > 0 {
      assert Step(Initial, None, 0, child) == Initial;
      NoFetchNeverEnds(Add32(child, BatchSize), fuel - 1);
    }
  }

  /** The receive-chain batches 0 .. n-1, starting at children 0, 50, 100, ... (uint32). */
  function Batches(f: Fetch, n: nat): seq<AddressRecord>
  {
    if n == 0 then [] else Batches(f, n - 1) + f(0, BatchStart(n - 1)).0
  }

  function BatchStart(j: nat): uint32
  {
    Add32(0, BatchSize * j)
  }

  /** The scan's result in full: for a coin flag of the seven cases, it is the first n
      batches of the receive chain, where n is the first batch count after which the last 10
      addresses are all unused; the balance is their sum, isUsed says whether any of them
      has a transaction, and the error is the last batch's lookup error. */
  lemma ScanIsFirstBatches(p: Phrase, coin: string, env: Env, fuel: nat) returns (n: nat)
    requires Scan(p, coin, env, fuel).Some?
    ensures VariantOf(coin).Some?
    ensures var s := Scan(p, coin, env, fuel).value; var v := VariantOf(coin).value;
      var f := FetcherOf(p, coin, env).value;
      && 1 <= n <= fuel
      && s.addresses == Batches(f, n)
      && (forall j :: 0 <= j < n ==> f(0, BatchStart(j)) == BatchOf(p, v, 0, BatchStart(j), env))
      && TrailingUnused(s.addresses) >= GapLimit
      && (forall m :: 0 <= m < n ==> TrailingUnused(Batches(f, m)) < GapLimit)
      && s.balance == SumBalance(s.addresses)
      && s.isUsed == AnyUsed(s.addresses)
      && s.err == BatchOf(p, v, 0, BatchStart(n - 1), env).1
  {
    if VariantOf(coin).None? {
      UnknownCoinNeverEnds(p, coin, env, fuel);
    }
    ChangeChainNeverScanned(p, coin, env, fuel);
    var f := FetcherOf(p, coin, env).value;
    assert BatchStart(0) == 0;
    n := RunChainBatches(Initial, f, 0, fuel);
  }

  /** `s` is the scan's state after exactly the first n batches, the first n after which the
      last 10 addresses are unused. */
  predicate EndsAfter(f: Fetch, n: nat, s: ScanState)
    requires n >= 1
  {
    && s.addresses == Batches(f, n)
    && TrailingUnused(s.addresses) >= GapLimit
    && (forall m :: 0 <= m < n ==> TrailingUnused(Batches(f, m)) < GapLimit)
    && s.balance == SumBalance(s.addresses)
    && s.isUsed == AnyUsed(s.addresses)
    && s.err == f(0, BatchStart(n - 1)).1
  }

  /** RunChain from the state after k batches ends after batch n - 1. */
  lemma {:induction false} RunChainBatches(st: ScanState, f: Fetch, k: nat, fuel: nat) returns (n: nat)
    requires RunChain(st, Some(f), 0, BatchStart(k), fuel).Some?
    requires Consistent(st) && st.addresses == Batches(f, k)
    requires k == 0 ==> st == Initial
    requires k > 0 ==> st.err == f(0, BatchStart(k - 1)).1
    requires forall m :: 0 <= m < k ==> TrailingUnused(Batches(f, m)) < GapLimit
    ensures k <= n && 1 <= n <= k + fuel
    ensures EndsAfter(f, n, RunChain(st, Some(f), 0, BatchStart(k), fuel).value)
    decreases fuel
  {
    if st.skips >= GapLimit {
      n := k;
      return;
    }
    var st' := Step(st, Some(f), 0, BatchStart(k));
    StepConsistent(st, Some(f), 0, BatchStart(k));
    BatchStartNext(k);
    assert RunChain(st, Some(f), 0, BatchStart(k), fuel) == RunChain(st', Some(f), 0, BatchStart(k + 1), fuel - 1);
    assert st'.addresses == Batches(f, k + 1);
    n := RunChainBatches(st', f, k + 1, fuel - 1);
  }

  lemma BatchStartNext(j: nat)
    ensures Add32(BatchStart(j), BatchSize) == BatchStart(j + 1)
  {
    Add32Add32(0, BatchSize * j, BatchSize);
  }

  /** When the first batch holds at least 10 addresses and none of them is used, the scan
      stops after that batch: child 50 onwards is never derived or asked for. */
  lemma UnusedFirstBatchEndsScan(p: Phrase, coin: string, env: Env, fuel: nat)
    requires VariantOf(coin).Some? && fuel >= 1
    requires var recs := BatchOf(p, VariantOf(coin).value, 0, 0, env).0;
      |recs| >= GapLimit && forall i :: 0 <= i < |recs| ==> recs[i].txCount == 0
    ensures Scan(p, coin, env, fuel).Some?
    ensures Scan(p, coin, env, fuel).value.addresses == BatchOf(p, VariantOf(coin).value, 0, 0, env).0
    ensures !Scan(p, coin, env, fuel).value.isUsed
  {
    var f := FetcherOf(p, coin, env).value;
    var recs := f(0, 0).0;
    ChangeChainNeverScanned(p, coin, env, fuel);
    FirstBatchUnused(f, fuel);
  }

  lemma FirstBatchUnused(f: Fetch, fuel: nat)
    requires fuel >= 1
    requires |f(0, 0).0| >= GapLimit && forall i :: 0 <= i < |f(0, 0).0| ==> f(0, 0).0[i].txCount == 0
    ensures RunChain(Initial, Some(f), 0, 0, fuel) == Some(Step(Initial, Some(f), 0, 0))
    ensures Step(Initial, Some(f), 0, 0).addresses == f(0, 0).0
    ensures !Step(Initial, Some(f), 0, 0).isUsed
  {
    var recs := f(0, 0).0;
    TallyAllExtends([], recs);
    AllUnusedTrailing(recs);
    assert [] + recs == recs;
    var st := Step(Initial, Some(f), 0, 0);
    assert st.skips >= GapLimit;
  }

  lemma {:induction false} AllUnusedTrailing(recs: seq<AddressRecord>)
    requires forall i :: 0 <= i < |recs| ==> recs[i].txCount == 0
    ensures TrailingUnused(recs) == |recs| && !AnyUsed(recs)
    decreases |recs|
  {
    if recs != [] {
      var init := recs[..|recs| - 1];
      assert forall i :: 0 <= i < |init| ==> init[i] == recs[i];
      AllUnusedTrailing(init);
    }
  }

  // ---- The method ----

  /** The switch of LookupBTCBal: derive one batch and look it up with the coin's explorer.
      An unknown coin derives nothing and leaves the error as it was. */
  method FetchBatch(p: Phrase, coin: string, chain: uint32, child: uint32, batch: int, env: Env, errIn: Option<Error>)
    returns (addr: seq<Address>, err: Option<Error>)
    requires batch == BatchSize
    ensures FetcherOf(p, coin, env).None? ==> addr == [] && err == errIn
    ensures FetcherOf(p, coin, env).Some? ==> (Views(addr), err) == FetcherOf(p, coin, env).value(chain, child)
    ensures forall i :: 0 <= i < |addr| ==> fresh(addr[i])
  {
    var v := VariantOf(coin);
    if v.None? {
      return [], errIn;
    }
    addr, err := FetchVariant(p, v.value, chain, child, batch, env);
  }

  /** One case of the switch: getBitcoinAddresses on the variant's path and network, then
      LookupBTC (blockchain.info) or LookupBCH (btc.com). */
  method FetchVariant(p: Phrase, v: Variant, chain: uint32, child: uint32, batch: int, env: Env)
    returns (addr: seq<Address>, err: Option<Error>)
    requires batch == BatchSize
    ensures (Views(addr), err) == BatchOf(p, v, chain, child, env)
    ensures forall i :: 0 <= i < |addr| ==> fresh(addr[i])
  {
    addr := GetBitcoinAddresses(p, v.purpose, v.coinType, chain, child, batch, v.testnet, env);
    if v.explorer == BlockchainInfo {
      err := LookupBTC(addr, v.testnet, env);
    } else {
      err := LookupBCH(addr, env);
    }
  }

  /** The `range addr` loop: adds up the balances, and resets the run of unused addresses at
      every used one. */
  method TallyBatch(addr: seq<Address>, balanceIn: real, isUsedIn: bool, skipsIn: int)
    returns (balance: real, isUsed: bool, skips: int)
    ensures Tally(balance, isUsed, skips) == TallyAll(Tally(balanceIn, isUsedIn, skipsIn), Views(addr))
  {
    ghost var recs := Views(addr);
    balance, isUsed, skips := balanceIn, isUsedIn, skipsIn;
    var k := 0;
    while k < |addr|
      invariant 0 <= k <= |addr|
      invariant Tally(balance, isUsed, skips) == TallyAll(Tally(balanceIn, isUsedIn, skipsIn), recs[..k])
    {
      assert recs[..k + 1][..k] == recs[..k];
      balance := balance + addr[k].balance;
      if addr[k].txCount > 0 {
        isUsed := true;
        skips := 0;
      } else {
        skips := skips + 1;
      }
      k := k + 1;
    }
    assert recs[..k] == recs;
  }

  lemma ViewsConcat(a: seq<Address>, b: seq<Address>)
    ensures Views(a + b) == Views(a) + Views(b)
  {
  }

  /** `LookupBTCBal`. The source's loop need not end (an explorer that reports every
      address as used, an unknown coin flag), so the method is stated for the runs whose
      receive and change chains each end within `fuel` batches. */
  method LookupBTCBal(p: Phrase, coin: string, env: Env, ghost fuel: nat)
    returns (balance: real, isUsed: bool, addresses: seq<Address>, err: Option<Error>)
    requires Scan(p, coin, env, fuel).Some?
    ensures var s := Scan(p, coin, env, fuel).value;
      balance == s.balance && isUsed == s.isUsed && Views(addresses) == s.addresses && err == s.err
  {
    ghost var fetch := FetcherOf(p, coin, env);
    var skips := 0;
    balance, isUsed, addresses, err := 0.0, false, [], None;
    var chain: uint32 := 0;
    while chain < 2
      invariant 0 <= chain <= 2
      invariant chain == 0 ==> ScanState(balance, isUsed, Views(addresses), err, skips) == Initial
      invariant chain == 1 ==> RunChain(Initial, fetch, 0, 0, fuel) == Some(ScanState(balance, isUsed, Views(addresses), err, skips))
      invariant chain == 2 ==> ScanWith(fetch, fuel) == Some(ScanState(balance, isUsed, Views(addresses), err, skips))
    {
      balance, isUsed, addresses, err, skips := ScanChain(p, coin, env, chain, balance, isUsed, addresses, err, skips, fuel);
      chain := chain + 1;
    }
  }

  /** One pass of the `chain` loop: the `for skips < 10` loop over chain from child 0. */
  method ScanChain(p: Phrase, coin: string, env: Env, chain: uint32,
                   balanceIn: real, isUsedIn: bool, addressesIn: seq<Address>, errIn: Option<Error>, skipsIn: int,
                   ghost fuel: nat)
    returns (balance: real, isUsed: bool, addresses: seq<Address>, err: Option<Error>, skips: int)
    requires RunChain(ScanState(balanceIn, isUsedIn, Views(addressesIn), errIn, skipsIn), FetcherOf(p, coin, env), chain, 0, fuel).Some?
    ensures RunChain(ScanState(balanceIn, isUsedIn, Views(addressesIn), errIn, skipsIn), FetcherOf(p, coin, env), chain, 0, fuel)
         == Some(ScanState(balance, isUsed, Views(addresses), err, skips))
  {
    ghost var fetch := FetcherOf(p, coin, env);
    ghost var result := RunChain(ScanState(balanceIn, isUsedIn, Views(addressesIn), errIn, skipsIn), fetch, chain, 0, fuel).value;
    var batch := BatchSize;
    balance, isUsed, addresses, err, skips := balanceIn, isUsedIn, addressesIn, errIn, skipsIn;
    var child: uint32 := 0;
    ghost var f := fuel;
    while skips < 10
      invariant RunChain(ScanState(balance, isUsed, Views(addresses), err, skips), fetch, chain, child, f) == Some(result)
      decreases f
    {
      ghost var st := ScanState(balance, isUsed, Views(addresses), err, skips);
      var addr, e := FetchBatch(p, coin, chain, child, batch, env, err);
      balance, isUsed, skips := TallyBatch(addr, balance, isUsed, skips);
      ViewsConcat(addresses, addr);
      addresses := addresses + addr;
      err := e;
      assert Step(st, fetch, chain, child) == ScanState(balance, isUsed, Views(addresses), err, skips);
      f := f - 1;
      child := Add32(child, batch);
    }
  }
}
