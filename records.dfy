/** The records the scanner fills in (`Address`, `Token` of phrase.go), the decoded JSON shapes
    of the explorer replies, and `Env`: every external collaborator as a function. */
module Records {
  import opened Base
  import opened HDKeys

  /** A float64 that holds either an exact value or one of Inf/NaN (all non-finite values
      are one case here: once a sum becomes non-finite it stays so). */
  datatype Amount = Finite(value: real) | NonFinite

  /** float64 addition. */
  function AddAmount(a: Amount, b: Amount): (c: Amount)
    ensures c.Finite? <==> a.Finite? && b.Finite?
    ensures c.Finite? ==> c.value == a.value + b.value
  {
    if a.Finite? && b.Finite? then Finite(a.value + b.value) else NonFinite
  }

  /** float64 division `x / float64(d)`: a zero divisor gives Inf or NaN. */
  function DivAmount(x: real, d: int): (c: Amount)
    ensures c.Finite? <==> d != 0
    ensures d != 0 ==> c.value * d as real == x
  {
    if d == 0 then NonFinite else Finite(x / d as real)
  }

  /** `Token`: one ERC20 token seen in an address's transfer history. */
  datatype Token = Token(name: string, ticker: string, address: string, balance: Amount, txCount: int)

  /** The value of an `Address` at one moment. */
  datatype AddressRecord = AddressRecord(address: string, txCount: int, balance: real, isTest: bool, tokens: seq<Token>)

  /** `&Address{Address: a}`: every other field at its zero value. */
  function NewRecord(a: string): AddressRecord
  {
    AddressRecord(a, 0, 0.0, false, [])
  }

  function NewRecords(strs: seq<string>): (recs: seq<AddressRecord>)
    ensures |recs| == |strs|
    ensures forall i :: 0 <= i < |strs| ==> recs[i] == NewRecord(strs[i])
  {
    seq(|strs|, i requires 0 <= i < |strs| => NewRecord(strs[i]))
  }

  function RecordAddresses(recs: seq<AddressRecord>): (strs: seq<string>)
    ensures |strs| == |recs|
    ensures forall i :: 0 <= i < |recs| ==> strs[i] == recs[i].address
  {
    seq(|recs|, i requires 0 <= i < |recs| => recs[i].address)
  }

  /** `Address` (phrase.go): a derived address and what the explorers reported about it.
      Its address string is set when the record is built and never written afterwards. */
  class Address {
    const address: string
    var txCount: int
    var balance: real
    var isTest: bool
    var tokens: seq<Token>

    constructor (address: string)
      ensures View() == NewRecord(address)
    {
      this.address := address;
      txCount := 0;
      balance := 0.0;
      isTest := false;
      tokens := [];
    }

    function View(): AddressRecord
      reads this
    {
      AddressRecord(address, txCount, balance, isTest, tokens)
    }
  }

  function Views(addrs: seq<Address>): (recs: seq<AddressRecord>)
    reads addrs
    ensures |recs| == |addrs|
    ensures forall i :: 0 <= i < |addrs| ==> recs[i] == addrs[i].View()
  {
    seq(|addrs|, i requires 0 <= i < |addrs| reads addrs => addrs[i].View())
  }

  function AddressStrings(addrs: seq<Address>): (strs: seq<string>)
    ensures |strs| == |addrs|
    ensures forall i :: 0 <= i < |addrs| ==> strs[i] == addrs[i].address
  {
    seq(|addrs|, i requires 0 <= i < |addrs| => addrs[i].address)
  }

  /** No Address object occurs twice. */
  predicate Distinct(addrs: seq<Address>)
  {
    forall i, j :: 0 <= i < j < |addrs| ==> addrs[i] != addrs[j]
  }

  /** One entry of blockchain.info's `/balance` reply. */
  datatype BCiEntry = BCiEntry(finalBalance: int, nTx: int, totalReceived: int)

  /** btc.com's `/v3/address/<addr>` reply. */
  datatype BTCcomData = BTCcomData(address: string, balance: int, txCount: int, received: int)
  datatype BTCcomReply = BTCcomReply(errNo: int, data: BTCcomData)

  /** Etherscan replies: `txlist` (only the hashes are decoded), `balance` and `tokentx`. */
  datatype EthTxList = EthTxList(status: string, message: string, result: seq<string>)
  datatype EthBalance = EthBalance(status: string, message: string, result: string)
  datatype TokenTransfer = TokenTransfer(contract: string, to: string, value: string, name: string,
                                         ticker: string, decimal: string, hash: string)
  datatype EthTokenTx = EthTokenTx(status: string, message: string, result: seq<TokenTransfer>)

  /** An uncompressed secp256k1 public key (format byte, then X and Y). */
  type PubKeyBytes = s: seq<byte> | |s| == 65 witness seq(65, _ => 0)

  /** A Keccak-256 digest. */
  type Hash256 = s: seq<byte> | |s| == 32 witness seq(32, _ => 0)

  /** Everything outside the core. The explorer functions stand for `callAPI` on one URL
      and decoding into one reply shape; a Failure is callAPI's error (transport, body, JSON). */
  datatype Env = Env(
    derive: Deriver,                                      // ExtendedKey.Derive
    encode: (ExtendedKey, bool) -> Result<string>,        // Address(params).EncodeAddress(); true = testnet
    ecPubKey: ExtendedKey -> Result<PubKeyBytes>,         // ECPubKey() then SerializeUncompressed()
    keccak256: seq<byte> -> Hash256,                      // crypto.Keccak256
    addressString: seq<byte> -> string,                   // common.BytesToAddress(b).String()
    blockchainInfo: string -> Result<map<string, BCiEntry>>,
    btcCom: string -> Result<BTCcomReply>,
    etherscanTxList: string -> Result<EthTxList>,
    etherscanBalance: string -> Result<EthBalance>,
    etherscanTokenTx: string -> Result<EthTokenTx>)
}
