/** The Bitcoin-family half of phrase.go: deriving a run of consecutive receive or change
    addresses (`getBitcoinAddresses`) and filling them in from blockchain.info (`LookupBTC`,
    one call for the whole run) or from btc.com (`LookupBCH`, one call per address). */
module Bitcoin {
  import opened Base
  import opened HDKeys
  import opened Records

  const MinCount: int := 1
  const MaxCount: int := 100

  /** getBitcoinAddresses derives between 1 and 100 addresses, whatever it is asked for. */
  function Clamp(count: int): (n: int)
    ensures MinCount <= n <= MaxCount
    ensures MinCount <= count <= MaxCount ==> n == count
    ensures count < MinCount ==> n == MinCount
    ensures count > MaxCount ==> n == MaxCount
  {
    if count < MinCount then MinCount else if count > MaxCount then MaxCount else count
  }

  /** The address string of one child: m/purposeH/coinH/0H/chain/child (or m/0H/chain/child for
      purpose 0) on the main or the test network. Account is always 0. */
  function ChildAddress(p: Phrase, purpose: uint32, coin: uint32, chain: uint32, child: uint32,
                        testnet: bool, env: Env): Result<string>
  {
    var key :- DeriveHDKey(p.xprv, purpose, coin, 0, chain, child, env.derive);
    env.encode(key, testnet)
  }

  /** The address derivation of one phrase, purpose, coin, chain and network, as a function
      of the child index. */
  function Children(p: Phrase, purpose: uint32, coin: uint32, chain: uint32, testnet: bool, env: Env): uint32 -> Result<string>
  {
    child => ChildAddress(p, purpose, coin, chain, child, testnet, env)
  }

  /** The addresses of children start, start + 1, ... (uint32 arithmetic), at most n of them,
      up to the first child whose derivation fails. */
  function DerivedPrefix(derive: uint32 -> Result<string>, start: uint32, n: nat): (addrs: seq<string>)
    ensures |addrs| <= n
    decreases n
  {
    if n == 0 then []
    else match derive(start)
      case Failure(_) => []
      case Success(a) => [a] + DerivedPrefix(derive, Add32(start, 1), n - 1)
  }

  /** DerivedPrefix is the longest run of successful derivations: its i-th entry is the
      address of child start + i, and when it holds fewer than n addresses the next child fails. */
  lemma {:induction false} DerivedPrefixIsLongestPrefix(derive: uint32 -> Result<string>, start: uint32, n: nat)
    ensures var addrs := DerivedPrefix(derive, start, n);
      && (forall i :: 0 <= i < |addrs| ==> derive(Add32(start, i)) == Success(addrs[i]))
      && (|addrs| < n ==> derive(Add32(start, |addrs|)).Failure?)
    decreases n
  {
    var addrs := DerivedPrefix(derive, start, n);
    assert Add32(start, 0) == start;
    if n > 0 && derive(start).Success? {
      var next := Add32(start, 1);
      var rest := DerivedPrefix(derive, next, n - 1);
      DerivedPrefixIsLongestPrefix(derive, next, n - 1);
      assert addrs == [derive(start).value] + rest;
      forall i | 1 <= i < |addrs|
        ensures derive(Add32(start, i)) == Success(addrs[i])
      {
        Add32Add32(start, 1, i - 1);
        assert addrs[i] == rest[i - 1];
      }
      Add32Add32(start, 1, |rest|);
    }
  }

  /** A run that reached i addresses grows by the next child's address when that one derives. */
  lemma {:induction false} DerivedPrefixSnoc(derive: uint32 -> Result<string>, start: uint32, i: nat)
    requires |DerivedPrefix(derive, start, i)| == i
    requires derive(Add32(start, i)).Success?
    ensures DerivedPrefix(derive, start, i + 1) == DerivedPrefix(derive, start, i) + [derive(Add32(start, i)).value]
    decreases i
  {
    assert Add32(start, 0) == start;
    if i > 0 {
      var next := Add32(start, 1);
      Add32Add32(start, 1, i - 1);
      DerivedPrefixSnoc(derive, next, i - 1);
    }
  }

  /** A run that reached i addresses and whose next child fails is complete: asking for more
      gives nothing more. */
  lemma {:induction false} DerivedPrefixStops(derive: uint32 -> Result<string>, start: uint32, i: nat, m: nat)
    requires |DerivedPrefix(derive, start, i)| == i && i <= m
    requires derive(Add32(start, i)).Failure?
    ensures DerivedPrefix(derive, start, m) == DerivedPrefix(derive, start, i)
    decreases i
  {
    assert Add32(start, 0) == start;
    if i > 0 {
      var next := Add32(start, 1);
      Add32Add32(start, 1, i - 1);
      DerivedPrefixStops(derive, next, i - 1, m - 1);
    }
  }

  /** `getBitcoinAddresses`: derives Clamp(count) consecutive addresses from childNo; the first
      failing derivation ends the run (the source prints it and returns what it has). Every
      returned Address is new and holds only its address string. */
  method GetBitcoinAddresses(p: Phrase, purpose: uint32, coin: uint32, chainNo: uint32, childNo: uint32,
                             count: int, testnet: bool, env: Env) returns (addresses: seq<Address>)
    ensures Views(addresses) == NewRecords(DerivedPrefix(Children(p, purpose, coin, chainNo, testnet, env), childNo, Clamp(count)))
    ensures forall i :: 0 <= i < |addresses| ==> fresh(addresses[i])
    ensures Distinct(addresses)
  {
    var n := count;
    if n < MinCount {
      n := MinCount;
    }
    if n > MaxCount {
      n := MaxCount;
    }
    addresses := DeriveRun(Children(p, purpose, coin, chainNo, testnet, env), childNo, n);
  }

  /** The loop of `getBitcoinAddresses`: one new Address per child from childNo on, stopping at
      the first child whose derivation or address encoding fails. */
  method DeriveRun(derive: uint32 -> Result<string>, childNo: uint32, n: nat) returns (addresses: seq<Address>)
    ensures Views(addresses) == NewRecords(DerivedPrefix(derive, childNo, n))
    ensures forall i :: 0 <= i < |addresses| ==> fresh(addresses[i])
    ensures Distinct(addresses)
  {
    addresses := [];
    var child := childNo;
    var i := 0;
    while i < n
      invariant 0 <= i <= n && |addresses| == i
      invariant child == Add32(childNo, i)
      invariant AddressStrings(addresses) == DerivedPrefix(derive, childNo, i)
      invariant Blank(addresses)
      invariant forall j :: 0 <= j < i ==> fresh(addresses[j])
      invariant Distinct(addresses)
    {
      var pkh := derive(child);
      if pkh.Failure? {
        DerivedPrefixStops(derive, childNo, i, n);
        BlankViews(addresses);
        return;
      }
      DerivedPrefixSnoc(derive, childNo, i);
      var a := new Address(pkh.value);
      assert AddressStrings(addresses + [a]) == AddressStrings(addresses) + [a.address];
      addresses := addresses + [a];
      Add32Add32(childNo, i, 1);
      child := Add32(child, 1);
      i := i + 1;
    }
    BlankViews(addresses);
  }

  /** Every Address holds only its address string. */
  predicate Blank(addrs: seq<Address>)
    reads addrs
  {
    forall j :: 0 <= j < |addrs| ==> addrs[j].View() == NewRecord(addrs[j].address)
  }

  lemma BlankViews(addrs: seq<Address>)
    requires Blank(addrs)
    ensures Views(addrs) == NewRecords(AddressStrings(addrs))
  {
  }

  // ---- blockchain.info ----

  /** `addylist`: every address followed by a comma. */
  function AddressList(addrs: seq<string>): string
  {
    if addrs == [] then "" else AddressList(addrs[..|addrs| - 1]) + addrs[|addrs| - 1] + ","
  }

  /** The address list is the comma-joined addresses with one trailing comma. */
  lemma {:induction false} AddressListIsJoin(addrs: seq<string>)
    ensures addrs == [] ==> AddressList(addrs) == ""
    ensures addrs != [] ==> AddressList(addrs) == Join(addrs, ",") + ","
  {
    if |addrs| > 1 {
      var init := addrs[..|addrs| - 1];
      AddressListIsJoin(init);
      JoinSnoc(init, addrs[|addrs| - 1], ",");
      assert init + [addrs[|addrs| - 1]] == addrs;
    } else if |addrs| == 1 {
      assert addrs[..0] == [];
    }
  }

  lemma AddressListSnoc(addrs: seq<string>, i: nat)
    requires i < |addrs|
    ensures AddressList(addrs[..i + 1]) == AddressList(addrs[..i]) + addrs[i] + ","
  {
    assert addrs[..i + 1][..i] == addrs[..i];
  }

  function BTCDomain(isTestnet: bool): string
  {
    if isTestnet then "testnet." else ""
  }

  /** The one blockchain.info URL LookupBTC asks for. */
  function BTCUrl(addrs: seq<string>, isTestnet: bool): string
  {
    "https://" + BTCDomain(isTestnet) + "blockchain.info/balance?active=" + AddressList(addrs)
  }

  /** Satoshi to BTC: `float64(balance) / 100000000`. */
  function Coins(satoshi: int): real
  {
    satoshi as real / 100000000.0
  }

  /** A testnet lookup marks the address as a test address; a mainnet one leaves the flag. */
  function MarkTest(r: AddressRecord, isTestnet: bool): AddressRecord
  {
    if isTestnet then r.(isTest := true) else r
  }

  /** An address absent from the reply reads as the zero entry, as a Go map lookup does. */
  function BCiLookup(bci: map<string, BCiEntry>, a: string): BCiEntry
  {
    if a in bci then bci[a] else BCiEntry(0, 0, 0)
  }

  function FillBTCRecord(r: AddressRecord, bci: map<string, BCiEntry>): AddressRecord
  {
    var e := BCiLookup(bci, r.address);
    r.(txCount := e.nTx, balance := Coins(e.finalBalance))
  }

  function MarkTests(recs: seq<AddressRecord>, isTestnet: bool): (r: seq<AddressRecord>)
    ensures |r| == |recs|
    ensures forall i :: 0 <= i < |recs| ==> r[i] == MarkTest(recs[i], isTestnet)
  {
    seq(|recs|, i requires 0 <= i < |recs| => MarkTest(recs[i], isTestnet))
  }

  function FillBTCRecords(recs: seq<AddressRecord>, bci: map<string, BCiEntry>): (r: seq<AddressRecord>)
    ensures |r| == |recs|
    ensures forall i :: 0 <= i < |recs| ==> r[i] == FillBTCRecord(recs[i], bci)
  {
    seq(|recs|, i requires 0 <= i < |recs| => FillBTCRecord(recs[i], bci))
  }

  /** LookupBTC on values: the records after the call and its error. */
  function LookupBTCSpec(recs: seq<AddressRecord>, isTestnet: bool, env: Env): (seq<AddressRecord>, Option<Error>)
  {
    var marked := MarkTests(recs, isTestnet);
    match env.blockchainInfo(BTCUrl(RecordAddresses(recs), isTestnet))
    case Failure(e) => (marked, Some(e))
    case Success(bci) => (FillBTCRecords(marked, bci), None)
  }

  /** What LookupBTC promises about every address: one call for the whole list; the address
      and its tokens never change; a testnet call sets IsTest even when the call fails; on
      success the counts and balances are the reply's entry for that address (zero when
      the reply leaves it out), and on failure they are untouched. */
  lemma LookupBTCFillsEveryAddress(recs: seq<AddressRecord>, isTestnet: bool, env: Env)
    ensures var (after, err) := LookupBTCSpec(recs, isTestnet, env);
      var reply := env.blockchainInfo(BTCUrl(RecordAddresses(recs), isTestnet));
      && |after| == |recs|
      && (err.Some? <==> reply.Failure?)
      && (reply.Failure? ==> err == Some(reply.error))
      && forall i :: 0 <= i < |recs| ==>
           && after[i].address == recs[i].address
           && after[i].tokens == recs[i].tokens
           && after[i].isTest == (recs[i].isTest || isTestnet)
           && (reply.Success? ==>
                 after[i].txCount == BCiLookup(reply.value, recs[i].address).nTx &&
                 after[i].balance == Coins(BCiLookup(reply.value, recs[i].address).finalBalance))
           && (reply.Failure? ==> after[i].txCount == recs[i].txCount && after[i].balance == recs[i].balance)
  {
  }

  /** The URL names every address, comma-separated, each followed by a comma. */
  lemma BTCUrlNamesEveryAddress(addrs: seq<string>, isTestnet: bool)
    requires addrs != []
    ensures BTCUrl(addrs, isTestnet) ==
      "https://" + (if isTestnet then "testnet." else "") + "blockchain.info/balance?active=" + Join(addrs, ",") + ","
  {
    AddressListIsJoin(addrs);
  }

  /** `LookupBTC`: fills in every address from one blockchain.info reply. */
  method LookupBTC(addresses: seq<Address>, isTestnet: bool, env: Env) returns (err: Option<Error>)
    requires Distinct(addresses)
    modifies addresses
    ensures (Views(addresses), err) == LookupBTCSpec(old(Views(addresses)), isTestnet, env)
  {
    ghost var before := Views(addresses);
    var domain := "";
    if isTestnet {
      domain := "testnet.";
    }
    var addylist := MarkAndList(addresses, isTestnet);
    assert AddressStrings(addresses) == RecordAddresses(before);
    var reply := env.blockchainInfo("https://" + domain + "blockchain.info/balance?active=" + addylist);
    if reply.Failure? {
      return Some(reply.error);
    }
    FillFromBCi(addresses, reply.value);
    return None;
  }

  /** LookupBTC's first loop: marks testnet addresses and builds the address list. */
  method MarkAndList(addresses: seq<Address>, isTestnet: bool) returns (addylist: string)
    requires Distinct(addresses)
    modifies addresses
    ensures addylist == AddressList(AddressStrings(addresses))
    ensures Views(addresses) == MarkTests(old(Views(addresses)), isTestnet)
  {
    ghost var before := Views(addresses);
    ghost var strs := AddressStrings(addresses);
    addylist := "";
    var i := 0;
    while i < |addresses|
      invariant 0 <= i <= |addresses|
      invariant addylist == AddressList(strs[..i])
      invariant forall j :: 0 <= j < i ==> addresses[j].View() == MarkTest(before[j], isTestnet)
      invariant forall j :: i <= j < |addresses| ==> addresses[j].View() == before[j]
    {
      if isTestnet {
        addresses[i].isTest := true;
      }
      AddressListSnoc(strs, i);
      addylist := addylist + addresses[i].address + ",";
      i := i + 1;
    }
    assert strs[..i] == strs;
    assert Views(addresses) == MarkTests(before, isTestnet);
  }

  /** LookupBTC's second loop: copies each address's entry of the reply into it. */
  method FillFromBCi(addresses: seq<Address>, bci: map<string, BCiEntry>)
    requires Distinct(addresses)
    modifies addresses
    ensures Views(addresses) == FillBTCRecords(old(Views(addresses)), bci)
  {
    ghost var before := Views(addresses);
    var i := 0;
    while i < |addresses|
      invariant 0 <= i <= |addresses|
      invariant forall j :: 0 <= j < i ==> addresses[j].View() == FillBTCRecord(before[j], bci)
      invariant forall j :: i <= j < |addresses| ==> addresses[j].View() == before[j]
    {
      var e := BCiLookup(bci, addresses[i].address);
      addresses[i].txCount := e.nTx;
      addresses[i].balance := Coins(e.finalBalance);
      i := i + 1;
    }
    assert Views(addresses) == FillBTCRecords(before, bci);
  }

  // ---- btc.com ----

  /** The btc.com URL for one address. */
  function BCHUrl(a: string): string
  {
    "https://bch-chain.api.btc.com/v3/address/" + a
  }

  function FillBCHRecord(r: AddressRecord, d: BTCcomData): AddressRecord
  {
    r.(txCount := d.txCount, balance := Coins(d.balance))
  }

  /** LookupBCH on values: the addresses are asked for one at a time, in order; a failed
      call or a non-zero err_no ends the walk with an error; the first address with no
      transactions ends it without one. */
  function LookupBCHSpec(recs: seq<AddressRecord>, env: Env): (r: (seq<AddressRecord>, Option<Error>))
    ensures |r.0| == |recs|
  {
    if recs == [] then ([], None)
    else match env.btcCom(BCHUrl(recs[0].address))
      case Failure(e) => (recs, Some(e))
      case Success(reply) =>
        if reply.errNo != 0 then (recs, Some(BTCcomError(reply.errNo)))
        else if reply.data.txCount == 0 then (recs, None)
        else
          var (rest, err) := LookupBCHSpec(recs[1..], env);
          ([FillBCHRecord(recs[0], reply.data)] + rest, err)
  }

  /** The walk fills a prefix and stops: the first k records take their btc.com counts and
      balances (each used), every later record is untouched, and unless the walk covered every
      record, the (k+1)-th address was asked for and either failed, reported an error, or
      has no transactions, in which case no error is returned. */
  lemma {:induction false} LookupBCHStopsAtFirstUnused(recs: seq<AddressRecord>, env: Env) returns (k: nat)
    ensures var (after, err) := LookupBCHSpec(recs, env);
      && k <= |recs|
      && |after| == |recs|
      && after[k..] == recs[k..]
      && (forall i :: 0 <= i < k ==>
            var reply := env.btcCom(BCHUrl(recs[i].address));
            && reply.Success? && reply.value.errNo == 0 && reply.value.data.txCount != 0
            && after[i] == FillBCHRecord(recs[i], reply.value.data))
      && (k == |recs| ==> err.None?)
      && (k < |recs| ==>
            var reply := env.btcCom(BCHUrl(recs[k].address));
            match reply
            case Failure(e) => err == Some(e)
            case Success(v) =>
              if v.errNo != 0 then err == Some(BTCcomError(v.errNo))
              else v.data.txCount == 0 && err.None?)
    decreases |recs|
  {
    if recs == [] {
      k := 0;
      return;
    }
    var reply := env.btcCom(BCHUrl(recs[0].address));
    if reply.Failure? || reply.value.errNo != 0 || reply.value.data.txCount == 0 {
      k := 0;
      return;
    }
    var k' := LookupBCHStopsAtFirstUnused(recs[1..], env);
    k := k' + 1;
    var (rest, err) := LookupBCHSpec(recs[1..], env);
    var after := LookupBCHSpec(recs, env).0;
    assert after == [FillBCHRecord(recs[0], reply.value.data)] + rest;
    assert after[k..] == rest[k'..];
    assert recs[k..] == recs[1..][k'..];
    forall i | 1 <= i < k
      ensures after[i] == rest[i - 1] && recs[i] == recs[1..][i - 1]
    {
    }
  }

  /** One step of the btc.com walk from position i, when the address there is used. */
  lemma LookupBCHStep(recs: seq<AddressRecord>, i: nat, env: Env, data: BTCcomData)
    requires i < |recs|
    requires env.btcCom(BCHUrl(recs[i].address)) == Success(BTCcomReply(0, data)) && data.txCount != 0
    ensures var (rest, err) := LookupBCHSpec(recs[i + 1..], env);
      LookupBCHSpec(recs[i..], env) == ([FillBCHRecord(recs[i], data)] + rest, err)
  {
    assert recs[i..][0] == recs[i];
    assert recs[i..][1..] == recs[i + 1..];
  }

  /** The btc.com walk from position i when it stops there. */
  lemma LookupBCHHalts(recs: seq<AddressRecord>, i: nat, env: Env)
    requires i <= |recs|
    requires i < |recs| ==>
      var reply := env.btcCom(BCHUrl(recs[i].address));
      reply.Failure? || reply.value.errNo != 0 || reply.value.data.txCount == 0
    ensures LookupBCHSpec(recs[i..], env).0 == recs[i..]
    ensures i < |recs| ==>
      var reply := env.btcCom(BCHUrl(recs[i].address));
      LookupBCHSpec(recs[i..], env).1 ==
        if reply.Failure? then Some(reply.error)
        else if reply.value.errNo != 0 then Some(BTCcomError(reply.value.errNo))
        else None
    ensures i == |recs| ==> LookupBCHSpec(recs[i..], env).1 == None
  {
    if i < |recs| {
      assert recs[i..][0] == recs[i];
    } else {
      assert recs[i..] == [];
    }
  }

  /** `LookupBCH`: asks btc.com for each address in turn and fills it in, stopping at the
      first failure or the first unused address. */
  method LookupBCH(addresses: seq<Address>, env: Env) returns (err: Option<Error>)
    requires Distinct(addresses)
    modifies addresses
    ensures (Views(addresses), err) == LookupBCHSpec(old(Views(addresses)), env)
  {
    ghost var before := Views(addresses);
    ghost var spec := LookupBCHSpec(before, env);
    assert before[0..] == before;
    var i := 0;
    while i < |addresses|
      invariant 0 <= i <= |addresses|
      invariant forall j :: 0 <= j < |addresses| ==> addresses[j].View() == if j < i then spec.0[j] else before[j]
      invariant LookupBCHSpec(before[i..], env) == (spec.0[i..], spec.1)
    {
      var reply := env.btcCom("https://bch-chain.api.btc.com/v3/address/" + addresses[i].address);
      if reply.Failure? || reply.value.errNo != 0 || reply.value.data.txCount == 0 {
        LookupBCHHalts(before, i, env);
        SameAfter(spec.0, before, i);
        assert Views(addresses) == spec.0;
        if reply.Failure? {
          return Some(reply.error);
        }
        if reply.value.errNo != 0 {
          return Some(BTCcomError(reply.value.errNo));
        }
        // the first unused address ends the walk
        return None;
      }
      LookupBCHStep(before, i, env, reply.value.data);
      assert spec.0[i..][0] == spec.0[i];
      assert spec.0[i..][1..] == spec.0[i + 1..];
      addresses[i].txCount := reply.value.data.txCount;
      addresses[i].balance := Coins(reply.value.data.balance);
      i := i + 1;
    }
    LookupBCHHalts(before, i, env);
    assert Views(addresses) == spec.0;
    return None;
  }

  lemma SameAfter(a: seq<AddressRecord>, b: seq<AddressRecord>, i: nat)
    requires i <= |a| == |b| && a[i..] == b[i..]
    ensures forall j :: i <= j < |a| ==> a[j] == b[j]
  {
    forall j | i <= j < |a| ensures a[j] == b[j] {
      assert a[i..][j - i] == a[j];
      assert b[i..][j - i] == b[j];
    }
  }
}
