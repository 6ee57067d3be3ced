/** Path construction of `deriveHDKey` (phrase.go): which child indices are derived, in which
    order, for a legacy BIP32 path and for a BIP44 path (section "Path levels" of BIP44).
    The child-key derivation itself is the `Deriver` oracle. */
module HDKeys {
  import opened Base

  /** A serialized BIP32 extended key ("xprv..."); its contents are never inspected. */
  datatype ExtendedKey = ExtendedKey(serialized: string)

  /** `Phrase`: the master extended private key of one mnemonic. */
  datatype Phrase = Phrase(xprv: ExtendedKey)

  /** hdkeychain's `ExtendedKey.Derive`: derives one child; an index at or above
      HardenedKeyStart asks for hardened derivation. */
  type Deriver = (ExtendedKey, uint32) -> Result<ExtendedKey>

  const HardenedKeyStart: uint32 := 0x8000_0000

  predicate IsHardened(i: uint32)
  {
    i >= HardenedKeyStart
  }

  /** `deriveHDKey` as written: purpose 0 is the legacy path m/0H/chain/address; any other
      purpose is the BIP44 path m/purposeH/coinH/accountH/chain/address. The first failing
      derivation step ends the walk with its error. */
  function DeriveHDKey(xprv: ExtendedKey, purpose: uint32, coin: uint32, account: uint32,
                       chain: uint32, address: uint32, derive: Deriver): Result<ExtendedKey>
  {
    var purp :- derive(xprv, Add32(HardenedKeyStart, purpose as int));
    if purpose == 0 then
      var cha :- derive(purp, chain);
      derive(cha, address)
    else
      var co :- derive(purp, Add32(HardenedKeyStart, coin as int));
      var acc :- derive(co, Add32(HardenedKeyStart, account as int));
      var cha :- derive(acc, chain);
      derive(cha, address)
  }

  /** The child indices `deriveHDKey` derives, root first. The hardened offset is added
      with uint32 wrap-around, as Go does. */
  function HDPath(purpose: uint32, coin: uint32, account: uint32, chain: uint32, address: uint32): seq<uint32>
  {
    if purpose == 0 then [HardenedKeyStart, chain, address]
    else [Add32(HardenedKeyStart, purpose as int), Add32(HardenedKeyStart, coin as int),
          Add32(HardenedKeyStart, account as int), chain, address]
  }

  /** Walks a path one child at a time from `key`, stopping at the first failure. */
  function DerivePath(key: ExtendedKey, path: seq<uint32>, derive: Deriver): Result<ExtendedKey>
    decreases |path|
  {
    if path == [] then Success(key)
    else
      var child :- derive(key, path[0]);
      DerivePath(child, path[1..], derive)
  }

  /** `deriveHDKey` derives exactly the indices of HDPath, in order. */
  lemma DeriveHDKeyWalksPath(xprv: ExtendedKey, purpose: uint32, coin: uint32, account: uint32,
                             chain: uint32, address: uint32, derive: Deriver)
    ensures DeriveHDKey(xprv, purpose, coin, account, chain, address, derive)
         == DerivePath(xprv, HDPath(purpose, coin, account, chain, address), derive)
  {
    var path := HDPath(purpose, coin, account, chain, address);
    var k0 := derive(xprv, path[0]);
    if k0.Success? {
      var k1 := derive(k0.value, path[1]);
      if k1.Success? {
        var k2 := derive(k1.value, path[2]);
        assert DerivePath(k1.value, path[2..], derive) == (if k2.Failure? then k2 else DerivePath(k2.value, path[3..], derive));
        if purpose != 0 && k2.Success? {
          var k3 := derive(k2.value, path[3]);
          assert DerivePath(k2.value, path[3..], derive) == (if k3.Failure? then k3 else DerivePath(k3.value, path[4..], derive));
          if k3.Success? {
            assert DerivePath(k3.value, path[4..], derive) == (
              var k4 := derive(k3.value, path[4]); if k4.Failure? then k4 else DerivePath(k4.value, [], derive));
          }
        } else if k2.Success? {
          assert path[3..] == [];
        }
      }
    }
  }

  /** A purpose-0 (legacy BIP32) path is m/0H/chain/address: coin and account play no part. */
  lemma LegacyPathIgnoresCoinAndAccount(purpose: uint32, coin: uint32, account: uint32, chain: uint32, address: uint32)
    requires purpose == 0
    ensures HDPath(purpose, coin, account, chain, address) == HDPath(0, 0, 0, chain, address)
    ensures var path := HDPath(purpose, coin, account, chain, address);
      |path| == 3 && IsHardened(path[0]) && path[0] - HardenedKeyStart == 0 && path[1] == chain && path[2] == address
  {
  }

  /** A BIP44 path: hardened purpose, coin type and account, then the chain and the address
      index unhardened (when they are below 2^31). */
  lemma Bip44PathLevels(purpose: uint32, coin: uint32, account: uint32, chain: uint32, address: uint32)
    requires purpose != 0
    requires purpose < HardenedKeyStart && coin < HardenedKeyStart && account < HardenedKeyStart
    ensures var path := HDPath(purpose, coin, account, chain, address);
      && |path| == 5
      && IsHardened(path[0]) && path[0] - HardenedKeyStart == purpose
      && IsHardened(path[1]) && path[1] - HardenedKeyStart == coin
      && IsHardened(path[2]) && path[2] - HardenedKeyStart == account
      && path[3] == chain && path[4] == address
      && (chain < HardenedKeyStart ==> !IsHardened(path[3]))
      && (address < HardenedKeyStart ==> !IsHardened(path[4]))
  {
  }

  /** Go adds the hardened offset in uint32: a purpose of 2^31 + 44 wraps around to the
      unhardened index 44. */
  lemma HardenedOffsetWrapsAround()
    ensures HDPath(0x8000_002C, 0, 0, 0, 0)[0] == 44
    ensures !IsHardened(HDPath(0x8000_002C, 0, 0, 0, 0)[0])
  {
  }
}
