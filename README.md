# scan-phrase in Dafny

scan-phrase takes one or more 12-word BIP39 recovery phrases and reports, for each, whether
the wallets they open have ever been used and what they hold. It covers:

- Bitcoin, through blockchain.info. It checks the legacy BIP32 path m/0H/chain/child and the
  BIP44 path m/44H/0H/0H/chain/child.
- Bitcoin Cash, through btc.com. It checks the BIP32 path, BIP44 with coin type 0, and BIP44
  with coin type 145.
- Ethereum, through etherscan. It checks the one address at m/44H/60H/0H/0/0, with its
  balance and its ERC20 token transfers netted per token.

This project models the program's core and proves properties of the model:

- `HDKeys` (hdkeys.dfy) models deriveHDKey. It covers the path walked for a purpose, coin,
  account, chain and address, including the uint32 wrap-around of the hardened offset.
- `Bitcoin` (bitcoin.dfy) models three functions:
  - getBitcoinAddresses: the count is clamped to [1, 100], and derivation stops at the first
    failure.
  - LookupBTC: one blockchain.info call for a comma-terminated address list; missing entries
    read as zero.
  - LookupBCH: one btc.com call per address, stopping at the first failure, the first
    error number or the first unused address.
- `Scanner` (scan.dfy) models LookupBTCBal. It walks batches of 50 addresses until 10
  addresses in a row are unused. The counter of unused addresses is shared by the receive
  chain and the change chain and is never reset between them, so the change chain is never
  walked.
- `Numbers` (numbers.dfy) covers three pieces:
  - snipEth, which truncates to 8 decimals;
  - Go's `strconv.Atoi` with its int64 range;
  - the `10^dec` of the token netting. In Go this is a bitwise exclusive or, not a power.
- `Eth` (eth.dfy) models LookupETH. It covers the three etherscan calls and their status
  rules, and the ERC20 netting loop exactly as written. Two quirks are kept:
  - the first transfer of a new ticker is credited to entry 0;
  - a sent transfer counts negative.
- `Cli` (cli.dfy) models main.go:
  - the `-coin` flag;
  - where the phrases come from: the valid lines of phrases.txt, or the 12 arguments joined
    with spaces;
  - printBTCBalances, reduced to the lines it prints: one problem line per failed variant,
    then "Unused" or the list of used variants;
  - printETHBalances, reduced to the same: the wallet line, then one token line per token.
- `Records` (records.dfy) and `Base` (base.dfy) hold the shared parts:
  - the Address record, as a class whose fields the lookups update in place;
  - the token record;
  - the API replies as datatypes;
  - the environment of oracles;
  - Split and Join, lower-casing, and uint32 addition.

Everything outside the program is a parameter of the model, held in the `Env` datatype:

- key derivation;
- Bitcoin address encoding;
- the public key, Keccak-256 and the Ethereum address text;
- each HTTP endpoint, as a function from the exact URL to a decoded reply or an error.

Go's `float64` becomes `real`. A token balance is an `Amount`: either a finite value or
NonFinite, which stands for the infinity or NaN that a division by the exclusive-or divisor
0 would give.

## Model

| member | source | states |
|---|---|---|
| HDKeys.DeriveHDKeyWalksPath | phrase.go:231-281 | deriveHDKey derives child by child along HDPath. It stops at the first failing step with that step's error. |
| HDKeys.LegacyPathIgnoresCoinAndAccount | phrase.go:239-251 | With purpose 0 the path is m/0H/chain/address. Coin and account take no part. |
| HDKeys.Bip44PathLevels | phrase.go:253-274 | Any other purpose gives five levels. Purpose, coin and account are hardened; chain and address are not (for indices below 2^31). |
| HDKeys.HardenedOffsetWrapsAround | phrase.go:234 | The hardened offset is added in uint32. A purpose of 2^31 + 44 wraps around to the unhardened index 44. |
| Bitcoin.Clamp | phrase.go:66-72 | The count is clamped to [1, 100]: below 1 gives 1, above 100 gives 100, anything else is kept. |
| Bitcoin.DerivedPrefix | phrase.go:74-97 | The derivation loop yields at most the number of addresses it is asked for. |
| Bitcoin.DerivedPrefixIsLongestPrefix | phrase.go:74-97 | Address i is the one derived at childNo + i (uint32). The list is cut exactly at the first derivation failure. |
| Bitcoin.DerivedPrefixStops | phrase.go:77-80 | After a derivation failure, no later child is ever added, whatever the count. |
| Bitcoin.GetBitcoinAddresses | phrase.go:65-100 | Returns fresh, distinct Address objects. They are the blank records of the clamped, failure-cut list of derived addresses. |
| Bitcoin.DeriveRun | phrase.go:74-97 | The loop: its objects' views are the derived prefix, each one freshly allocated. |
| Bitcoin.AddressListIsJoin | phrase.go:112-117 | The address list is empty for no addresses. Otherwise it is the addresses joined by "," with a final ",". |
| Bitcoin.BTCUrlNamesEveryAddress | phrase.go:105-125 | The blockchain.info URL names every address and adds "testnet." on the test network. |
| Bitcoin.LookupBTCFillsEveryAddress | phrase.go:103-135 | The address and tokens of each address are unchanged. A testnet lookup sets IsTest even when the call fails. On success, counts and balances come from the reply's entry (zero when the entry is missing), in satoshi / 10^8. On failure they keep their values and the error is returned. |
| Bitcoin.LookupBTC | phrase.go:103-135 | Updates the Address objects in place to exactly LookupBTCSpec of their previous values, and returns its error. |
| Bitcoin.MarkAndList | phrase.go:110-117 | Marks every address as a test address on the test network, and builds the comma-terminated list. |
| Bitcoin.FillFromBCi | phrase.go:130-133 | Sets every address's count and balance from the reply map, reading a missing key as zero. |
| Bitcoin.LookupBCHSpec | phrase.go:138-173 | The btc.com walk never adds or drops a record. |
| Bitcoin.LookupBCHStopsAtFirstUnused | phrase.go:142-171 | The first k addresses are used and take btc.com's count and balance; all later ones are untouched. Address k+1 was asked for and either failed (its error is returned), carried an error number (a BTC.com error), or has no transactions (no error). |
| Bitcoin.LookupBCH | phrase.go:138-173 | Updates the Address objects in place to exactly LookupBCHSpec of their previous values, and returns its error. |
| Scanner.VariantOf | phrase.go:188-210 | Exactly seven coin flags are known. The bch flags use btc.com, the tbt flags the test network, and the *32 flags purpose 0. |
| Scanner.FetcherOf | phrase.go:188-210 | A batch function exists exactly for the seven known flags. |
| Scanner.BatchAtMostBatchSize | phrase.go:187-210 | One pass of the switch yields at most 50 addresses, whichever of the seven flags it is. |
| Scanner.StepKeepsEarlierAddresses | phrase.go:212-224 | A pass appends its batch to the collected addresses and never drops an earlier one. |
| Scanner.TallyAllExtends | phrase.go:212-220 | The inner loop's totals over a batch are the totals over all the addresses so far: sum of balances, whether any is used, and how many trailing addresses are unused. |
| Scanner.StepConsistent | phrase.go:186-225 | Each batch keeps the balance, isUsed and skips consistent with the collected addresses. |
| Scanner.RunChainEndsAtGap | phrase.go:186 | A chain's loop ends only once the skip counter reaches 10. |
| Scanner.ChangeChainNeverScanned | phrase.go:179-186 | skips is not reset per chain, so the change-chain loop never runs. The scan equals the receive chain's loop. |
| Scanner.UnknownCoinNeverEnds | phrase.go:186-210 | For a flag outside the seven cases, nothing is derived and skips stays 0, so the loop never ends. |
| Scanner.ScanIsFirstBatches | phrase.go:176-228 | The result is the first n receive-chain batches (starting at 0, 50, 100, ...), where n is the first count after which the last 10 addresses are unused. The balance is their sum, isUsed says whether any is used, and the error is the last batch's. |
| Scanner.UnusedFirstBatchEndsScan | phrase.go:186-224 | A first batch of at least 10 unused addresses ends the scan. Its addresses are the result, and isUsed is false. |
| Scanner.FetchBatch | phrase.go:187-210 | The switch derives and looks up one batch. An unknown flag gives no addresses and leaves err as it was. |
| Scanner.FetchVariant | phrase.go:189-209 | One case of the switch: getBitcoinAddresses followed by LookupBTC or LookupBCH. |
| Scanner.TallyBatch | phrase.go:212-220 | The loop over a batch computes TallyAll over its records. |
| Scanner.ScanChain | phrase.go:186-225 | The `for skips < 10` loop computes RunChain from child 0. |
| Scanner.LookupBTCBal | phrase.go:176-228 | Balance, isUsed, the address list and err are the value-level Scan's. |
| Numbers.SnipEthTruncatesToEightDecimals | phrase.go:317-331 | With more than 8 decimals and more digits than decimal - 8, the value is the digit string truncated to 8 decimals. |
| Numbers.SnipEthUncutIsExact | phrase.go:317-331 | Otherwise the value is exact: digits / 10^decimal, or the digits themselves for decimal <= 0. |
| Numbers.SnipEthWithinOneE8 | phrase.go:317-331 | For positive decimals the result is within 10^-8 below the exact value. |
| Numbers.SnipEthNativeExample | eth.go:85 | "1234567890123456789" wei with 18 decimals is 1.23456789. |
| Numbers.ParseRoundTrip | eth.go:139 | Atoi of the decimal text of n gives n back inside the int64 range and a range error outside it. ParseFloat of that text gives n with no error. |
| Numbers.ParseRejectsNonDigit | eth.go:139 | A string with a non-digit after its optional sign is a syntax error for Atoi, and 0 with a syntax error for ParseFloat. |
| Numbers.ParseRejectsEmptyAndSign | phrase.go:326 | The empty string and a bare sign are syntax errors for both parsers. |
| Numbers.DropDigitsDivides | phrase.go:320-323 | Dropping k trailing digits divides the value by 10^k, rounding down. |
| Numbers.SnipDigits | phrase.go:317-324 | The cut keeps a prefix of the digits. It cuts exactly when the decimal exceeds 8 and there are more than decimal - 8 digits, then removes decimal - 8 digits and sets the decimal to 8. Otherwise the string and the decimal are kept. |
| Numbers.Xor10ZeroExactlyAtTen | eth.go:158-160 | Go's `10^dec` is 0 exactly for dec = 10. |
| Numbers.Xor10Samples | eth.go:159 | `10^dec` is 24 for 18, 12 for 6 and 2 for 8: exclusive or, not a power. |
| Numbers.Xor10 | eth.go:159 | The exclusive or of 10 with a non-negative int64 decimal is a non-negative 64-bit value. |
| Records.DivAmount | eth.go:159 | A division is finite exactly when the divisor is non-zero, and then it is the quotient. |
| Records.Address.constructor | phrase.go:94 | A new Address holds only its address string: zero count, zero balance, not a test address, no tokens. |
| Eth.EthKeyPath | eth.go:18 | The Ethereum key is the one at m/44H/60H/0H/0/0. |
| Eth.AddressIgnoresFormatByte | eth.go:31-32 | The address depends only on the public key after its first byte. |
| Eth.ETHSpec | eth.go:15-36 | LookupETH returns at most one record, and returns an error whenever it returns none. |
| Eth.ETHSpecShape | eth.go:15-36 | At most one record. There is none exactly when the key or the public key cannot be had, and then that error is returned. Otherwise there is the wallet address, with IsTest set to the network. |
| Eth.EthRecord | eth.go:52-113 | The address and the network flag never change. |
| Eth.TxListRule | eth.go:52-63 | txlist is an error exactly when the status is not "1" and the message is not "No transactions found"; the record is then untouched. Otherwise the count is the number of transactions. |
| Eth.EthBalanceStage | eth.go:65-89 | The balance stage changes nothing but the balance. |
| Eth.NoBalanceCallWithoutTransactions | eth.go:65 | With no transactions the balance endpoint is never consulted and the balance stays 0. |
| Eth.BalanceRule | eth.go:73-88 | A balance status other than "1" is an error and the balance is untouched. Otherwise the balance is snipEth of the result with 18 decimals, with its error. |
| Eth.EthTokenStage | eth.go:106-164 | The token stage changes nothing but the token list. |
| Eth.TokenTxNotOneLeavesNoTokens | eth.go:111-113 | A tokentx status other than "1" leaves the record as it was and is no error. |
| Eth.Amounts | eth.go:138-149 | The decimal is Atoi of tokenDecimal, within int64. |
| Eth.CreditFailsOnBadNumbers | eth.go:138-149 | A transfer fails exactly when its decimal is not an int64 or its value does not parse, with that error. |
| Eth.CreditSignFlips | eth.go:151-155 | The same transfer sent rather than received counts with the opposite sign. |
| Eth.ScaleNegates | eth.go:157-160 | Scaling commutes with negation. |
| Eth.ScaleFiniteUnlessTen | eth.go:157-160 | A decimal of 0 or less keeps the value. A positive decimal gives a finite amount for every decimal except 10. |
| Eth.TwoDecimalsDividedByEight | eth.go:146-160 | 100 units with 2 decimals come to 0.125: snipEth gives 1, then the division is by `10^2` = 8. |
| Eth.TenDecimalsDivideByZero | eth.go:158-160 | Any transfer with 10 decimals that parses gives a non-finite amount. |
| Eth.NetStep | eth.go:120-164 | One pass of the netting loop keeps the ticker map aligned with the token list. |
| Eth.NetAll | eth.go:119-164 | The whole loop keeps that alignment. |
| Eth.EmptyTickerSkipped | eth.go:121-123 | A transfer without a ticker changes nothing. |
| Eth.SeenTickerCreditsItsEntry | eth.go:125-163 | A known ticker's amount and count go to its own entry and to no other entry. |
| Eth.NewTickerCreditsFirstEntry | eth.go:125-163 | A new ticker appends an entry with its name, ticker and contract. The amount and count go to entry 0, because idx is 0 for a missing key, so the new entry stays at zero unless it is the first of all. |
| Eth.FailedTransferKeepsNewEntry | eth.go:127-149 | A transfer whose numbers fail ends the loop with that error, after its new entry (if any) was appended. |
| Eth.NetAllStopsAtError | eth.go:140-149 | Transfers after a failing one are never looked at. |
| Eth.NetTokensFollowFirstSeen | eth.go:125-135 | On success the token list is one entry per distinct non-empty ticker, in order of first appearance, with that transfer's name, ticker and contract. |
| Eth.TickersDistinct | eth.go:125-135 | No ticker appears twice in the token list. |
| Eth.StepCount | eth.go:163 | One pass adds 1 to the total count exactly when the transfer has a ticker and is credited. |
| Eth.CreditsAddUp | eth.go:162-163 | Crediting a token with a run of amounts keeps its name, ticker and address and adds one to its count per amount. Its balance is the starting balance plus the real sum of the amounts while it and all of them are finite, and NonFinite once one is not. |
| Eth.NetCountsProcessed | eth.go:120-164 | The counts add up to the number of ticker-carrying transfers processed before the first failure. There is no error exactly when all transfers were processed, and otherwise the error is the failing transfer's. |
| Eth.SecondTickerCreditedToFirst | eth.go:125-163 | Receiving 5 Alpha then 7 Beta gives Alpha 12 with count 2, and Beta 0 with count 0. |
| Eth.LookupETH | eth.go:15-166 | The returned Address objects and error are exactly ETHSpec's. |
| Eth.FillEth | eth.go:52-164 | The record's three stages, applied in place. |
| Eth.NetTransfers | eth.go:119-164 | Applies the netting loop to the record in place: only the tokens change, and they become NetAll's. |
| Eth.NetOne | eth.go:120-164 | One pass of the loop, in place, equal to NetStep. |
| Eth.TransferAmount | eth.go:138-160 | Succeeds exactly when Credit does, with the same amount or error. |
| Cli.SelectCoins | main.go:41-54 | Accepted exactly for btc, bch, eth and default, case-insensitively. BTC is shown for btc or default, BCH for bch, ETH for eth or default. |
| Cli.SelectionShape | main.go:41-54 | Every accepted flag selects a coin, and BCH is never selected with another coin. |
| Cli.FlagCaseIgnored | main.go:41 | "BTC" selects BTC only, and "Default" selects BTC and ETH. |
| Cli.AllIsInvalid | main.go:38-54 | "all", offered by the flag's help text, is rejected. |
| Cli.LoadPhrases | main.go:56-91 | The phrases, or None for the usage message, are exactly PhraseSource's. |
| Cli.ArgumentCountRule | main.go:60-91 | The usage message is printed exactly when the argument count is neither 0 nor 12, or it is 0 and phrases.txt is missing. |
| Cli.FilterLines | main.go:71-77 | Keeps exactly the lines that pass the mnemonic check, in order. |
| Cli.FilterPicks | main.go:72-77 | The phrases are the valid lines, at strictly increasing positions, and a line is kept exactly when it is valid. |
| Cli.UnreadableFileGivesEmptyLine | main.go:66-77 | An unreadable file gives the one empty line, kept only if it passes the check. |
| Cli.JoinArgs | main.go:79-87 | The 12 arguments joined with single spaces. |
| Cli.TwelveWordsRoundTrip | main.go:79-87 | Twelve space-free words give one phrase. Splitting it at spaces gives the words back, and it is 11 characters longer than the words together. |
| Cli.LookedUp | main.go:159 | Each variant keeps its coin and kind, and takes LookupBTCBal's isUsed and balance. |
| Cli.LookupOne | main.go:158-166 | One pass of the lookup loop: the updated variant and its problem line. |
| Cli.LookupVariants | main.go:156-167 | The variants array is updated in place to the looked-up variants. One problem line is printed per failed lookup, in order, and numused is the number of used variants. |
| Cli.Summary | main.go:169-185 | The summary text is "Unused" when nothing is used. Otherwise it is the used prefix with the used variants' entries joined by ", ". |
| Cli.UnusedIffNoneUsed | main.go:171-185 | The summary reads "Unused" exactly when no variant is used. |
| Cli.UsedListing | main.go:173-185 | With some variant used, the summary lists every used variant and only those, in the order of the slice. |
| Cli.ErrorDoesNotHideUse | main.go:159-172 | A variant whose lookup reports use makes the summary "Used", even when the lookup also returned an error. |
| Cli.PrintBTCBalances | main.go:155-188 | The lines printed are the problem lines and then the summary line, and the slice holds the looked-up variants. |
| Cli.TokenLines | main.go:214-221 | One token line per token, in order, with balance and ticker. Every one is drawn as subcrypto1 but the last, which is subcrypto2. |
| Cli.Report | main.go:193-222 | The lines for LookupETH's result. |
| Cli.PrintETHBalances | main.go:190-223 | The lines printed are exactly ETHLines's. |
| Cli.ETHLinesShape | main.go:190-223 | An error prints only the problem line. Otherwise there is one wallet line, reading "Unused" exactly when it has no transactions, then one line per token, with subcrypto2 exactly on the last. |
| Cli.ReportPhrase | main.go:118-139 | One phrase prints BTC, then BCH, then ETH, each when selected. |
| Cli.PrintVariants | main.go:119-132 | printBTCBalances on a fresh slice of the given variants. |
| Cli.DefaultReportsBTCThenETH | main.go:48-139 | The default flag prints the BTC lines and then the ETH lines, and no BCH lines. |
| Base.ToLower | main.go:41 | Lower-casing keeps the length and maps each letter A-Z to a-z, leaving other characters alone. |
| Base.JoinSplit | main.go:71 | Joining the lines Split gives with newlines rebuilds the file's data. |
| Base.SplitJoin | main.go:79-87 | Splitting a join of separator-free parts gives the parts back. |
| Base.JoinLength | main.go:79-87 | A join is as long as its parts plus one separator between each pair. |

## Left out

- callAPI (phrase.go:283-314) is not modelled: the HTTP request, the 5-second timeout, rate limiting
  with `lastcall`, the progress line and JSON decoding. Each endpoint is instead an `Env`
  function from the exact URL to a decoded reply or an error. An "Invalid server response"
  is one of those errors.
- BIP39 seeding, `NewPhrase` (phrase.go:48-61) and the master key are not modelled. A
  `Phrase` is its extended key.
- Key derivation, address encoding, `ECPubKey`, Keccak-256 and the EIP-55 address text are
  oracles in `Env`, not modelled.
- The mnemonic check `bip39.IsMnemonicValid` is a parameter `valid`.
- Floating point is not modelled: balances are exact `real`s, with no float64 rounding.
  - An infinite or NaN token balance is one `NonFinite` value.
  - `math.Pow` is exact.
  - `%.5f` formatting is a parameter `fmt`.
- Numbers.ParseFloat: accepts only an optionally signed string of decimal digits.
  - Go also parses fractions ("1.5"), exponents ("1e3"), hexadecimal and "Inf"/"NaN". The
    model gives them 0 and a syntax error, so snipEth fails. Eth.BalanceRule or the
    netting loop then returns an error where Go returns none.
  - A digit string beyond the float64 range gives ±Inf and a range error in Go, so
    LookupETH returns an error. The model gives the exact value and no error.
- The diagnostic prints are not modelled: phrase.go:78, 91, 269 and 276, eth.go:26 and 80,
  and main.go:68. Each prints an error or a decoded reply and changes no result.
- Base.ToLower: lower-cases ASCII letters only. Go's `strings.ToLower` is full Unicode.
- Byte and character lengths are the same here: `len(input)` in snipEth counts characters.
- Printing is reduced to lines with a title and a text. The box graphics, the header lines,
  the phrase banner (`v[:28]`) and the end lines (main.go:93-117, 142-144) are not modelled.
  The same goes for the Ethereum wait notice and the 10000-transfer warning
  (eth.go:115-117).
- main's loop over the phrases with NewPhrase is not modelled. Cli.ReportPhrase is the body
  for one phrase.
- The showTestnet branches (main.go:121-123, 136-138) are not modelled. The variable is never
  set, so those lines are never printed; the testnet flags themselves (tbt32, tbt44, the
  test domains) are modelled in Scanner and Eth.
- Scanner.LookupBTCBal: stated only for runs that end within `fuel` batches per chain.
  Runs that never end are not covered: an explorer reporting every address as used, an
  empty batch, an unknown flag. Cli.LookupVariants, Cli.PrintBTCBalances and
  Cli.ReportPhrase carry the same requirement.
- Bitcoin.LookupBTC: requires the Address objects to be distinct. Go's callers always pass
  fresh ones from getBitcoinAddresses, which Bitcoin.GetBitcoinAddresses proves distinct;
  updates through aliased Address objects are not covered.
- Bitcoin.LookupBCH: the same distinctness requirement as LookupBTC.
- Helper methods split the source's loops for structure only; the behaviour is the same:
  - Bitcoin.DeriveRun, Bitcoin.MarkAndList and Bitcoin.FillFromBCi;
  - the switch as Scanner.VariantOf with Scanner.FetchVariant, plus Scanner.ScanChain and
    Scanner.TallyBatch;
  - Eth.FillEth, Eth.NetOne and Eth.TransferAmount;
  - Cli.LookupOne, Cli.Summary, Cli.PrintVariants and Cli.Report.
- An unreadable phrases.txt is modelled as empty data. That is what `ioutil.ReadFile`
  returns when the file cannot be opened. A read that fails part way returns the bytes read
  so far, and the model does not cover that case.

Three behaviours of the code that are easy to misread, modelled as written:

- LookupBCH makes one btc.com call per address, not one call for the batch.
- A token amount is divided twice: once in snipEth, then by the exclusive-or divisor.
- The scan stops after the first batch whose last ten addresses are all unused. An address
  used further out, at index 59 for example, is never looked at.
