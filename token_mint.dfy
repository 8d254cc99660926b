/** The token mint heuristic: a transfer out of the null address, between at
    most two other parties. The null address and the wrapped-native-token
    list are parameters (known-address configuration). */
module TokenMint {
  import opened Types
  import opened Sequences

  /** The detect filter: transfers from the null address whose asset is not
      a wrapped-native token. */
  function Mints(transfers: seq<AssetTransfer>, nullAddress: Address, wrappedNative: seq<Address>)
    : (r: seq<AssetTransfer>)
    ensures forall t :: t in r <==> t in transfers && t.from == nullAddress && t.asset !in wrappedNative
    ensures |r| > 0 <==> exists t :: t in transfers && t.from == nullAddress && t.asset !in wrappedNative
    decreases |transfers|
  {
    if transfers == [] then []
    else
      var t := transfers[0];
      assert forall x :: x in transfers <==> x == t || x in transfers[1..];
      (if t.from == nullAddress && t.asset !in wrappedNative then [t] else []) + Mints(transfers[1..], nullAddress, wrappedNative)
  }

  /** The generate filter: every transfer from the null address. */
  function NullOrigin(transfers: seq<AssetTransfer>, nullAddress: Address): (r: seq<AssetTransfer>)
    ensures forall t :: t in r <==> t in transfers && t.from == nullAddress
    decreases |transfers|
  {
    if transfers == [] then []
    else
      var t := transfers[0];
      assert forall x :: x in transfers <==> x == t || x in transfers[1..];
      (if t.from == nullAddress then [t] else []) + NullOrigin(transfers[1..], nullAddress)
  }

  /** `Object.keys(netAssetTransfers)` */
  function Keys(net: NetTransfers): (r: seq<Address>)
    ensures forall a :: a in r <==> a in KeySet(net)
  {
    var r := seq(|net|, i requires 0 <= i < |net| => net[i].0);
    assert forall a :: a in KeySet(net) ==> a in r by {
      forall a | a in KeySet(net) ensures a in r {
        var i :| 0 <= i < |net| && net[i].0 == a;
        assert r[i] == a;
      }
    }
    r
  }

  /** `s.filter((address) => address !== x)` */
  function Without(s: seq<Address>, x: Address): (r: seq<Address>)
    ensures forall a :: a in r <==> a in s && a != x
    ensures Distinct(s) ==> Distinct(r)
    decreases |s|
  {
    if s == [] then []
    else
      assert forall a :: a in s <==> a == s[0] || a in s[1..];
      assert Distinct(s) ==> Distinct(s[1..]) && s[0] !in s[1..];
      (if s[0] != x then [s[0]] else []) + Without(s[1..], x)
  }

  /** `transactionParties`: the keys, deduplicated, without the null address. */
  function Parties(net: NetTransfers, nullAddress: Address): (r: seq<Address>)
    ensures forall a :: a in r <==> a in KeySet(net) && a != nullAddress
    ensures Distinct(r)
  {
    Without(Dedup(Keys(net)), nullAddress)
  }

  /** The parties are exactly the distinct non-null keys, each counted once. */
  lemma PartiesCount(net: NetTransfers, nullAddress: Address)
    ensures |Parties(net, nullAddress)| == |KeySet(net) - {nullAddress}|
  {
    var p := Parties(net, nullAddress);
    DistinctCard(p);
    assert (set a | a in p) == KeySet(net) - {nullAddress};
  }

  /** A mint is detected iff the transaction has transfers and a net table,
      some transfer leaves the null address with an asset outside the
      wrapped-native list, and at most two addresses other than the null
      address are keys of the net table. */
  function DetectTokenMint(assetTransfers: Option<seq<AssetTransfer>>, netAssetTransfers: Option<NetTransfers>,
                           nullAddress: Address, wrappedNative: seq<Address>): (r: bool)
    ensures r <==>
      && assetTransfers.Some? && netAssetTransfers.Some?
      && (exists t :: t in assetTransfers.value && t.from == nullAddress && t.asset !in wrappedNative)
      && |KeySet(netAssetTransfers.value) - {nullAddress}| <= 2
  {
    if assetTransfers.None? || |assetTransfers.value| == 0 || netAssetTransfers.None? then false
    else
      var mints := Mints(assetTransfers.value, nullAddress, wrappedNative);
      if |mints| == 0 then false
      else
        var transactionParties := Parties(netAssetTransfers.value, nullAddress);
        PartiesCount(netAssetTransfers.value, nullAddress);
        |transactionParties| <= 2
  }

  /** The copy `{ ...mints[0], token: mints[0].asset }` with `asset` deleted. */
  datatype MintedTransfer = MintedTransfer(
    from: Address, to: Address, token: Address, kind: AssetType, value: nat, tokenId: Option<string>)

  function Renamed(t: AssetTransfer): MintedTransfer {
    MintedTransfer(t.from, t.to, t.asset, t.kind, t.value, t.tokenId)
  }

  /** The `token` variable: type and token, plus `tokenId` for ERC-721,
      `tokenId` and `value` for ERC-1155, `value` otherwise. */
  function TokenVariable(m: MintedTransfer): (v: Variable)
    ensures v.TokenVar? && v.kind == m.kind && v.token == Some(m.token)
    ensures v.tokenId.Some? ==> v.tokenId == m.tokenId
    ensures v.tokenId == m.tokenId <== m.kind == Erc721 || m.kind == Erc1155
    ensures m.kind != Erc721 && m.kind != Erc1155 ==> v.tokenId == None
    ensures v.amount.Some? <==> m.kind != Erc721
    ensures v.amount.Some? ==> v.amount.value == m.value
  {
    match m.kind
    case Erc721 => TokenVar(Erc721, Some(m.token), m.tokenId, None)
    case Erc1155 => TokenVar(Erc1155, Some(m.token), m.tokenId, Some(m.value))
    case _ => TokenVar(m.kind, Some(m.token), None, Some(m.value))
  }

  /** Category `FUNGIBLE_TOKEN`, title "Token Mint", the verb `minted`. */
  const MintSummaries: Summaries :=
    Summaries("FUNGIBLE_TOKEN", Summary("Token Mint", "[[recipient]] [[minted]] [[token]]",
                                        map["minted" := ContextAction("minted")]))

  /** The context built from the first transfer out of the null address. */
  function TokenMintContext(transfers: seq<AssetTransfer>, nullAddress: Address): (r: Context)
    requires |NullOrigin(transfers, nullAddress)| > 0
    ensures Describes(r.variables, NullOrigin(transfers, nullAddress)[0])
    ensures r.summaries.category == "FUNGIBLE_TOKEN" && r.summaries.en.title == "Token Mint"
  {
    var assetTransfer := Renamed(NullOrigin(transfers, nullAddress)[0]);
    Context(map["token" := TokenVariable(assetTransfer), "recipient" := AddressVar(Some(assetTransfer.to))],
            MintSummaries)
  }

  /** Writes `context` from the first null-origin transfer; the transfer is
      copied, so `assetTransfers` and every other field stay as they were. */
  method GenerateTokenMintContext(transaction: Transaction, nullAddress: Address) returns (r: Transaction)
    requires transaction.assetTransfers.Some?
    requires |NullOrigin(transaction.assetTransfers.value, nullAddress)| > 0
    modifies transaction`context
    ensures r == transaction
    ensures transaction.context == Some(TokenMintContext(transaction.assetTransfers.value, nullAddress))
  {
    var mints := NullOrigin(transaction.assetTransfers.value, nullAddress);
    var assetTransfer := Renamed(mints[0]);
    var recipient := assetTransfer.to;
    transaction.context := Some(Context(
      map["token" := TokenVariable(assetTransfer), "recipient" := AddressVar(Some(recipient))],
      MintSummaries));
    r := transaction;
  }

  /** A detected mint always has a null-origin transfer to describe. */
  lemma DetectedMintHasNullOrigin(assetTransfers: Option<seq<AssetTransfer>>, netAssetTransfers: Option<NetTransfers>,
                                  nullAddress: Address, wrappedNative: seq<Address>)
    requires DetectTokenMint(assetTransfers, netAssetTransfers, nullAddress, wrappedNative)
    ensures assetTransfers.Some? && |NullOrigin(assetTransfers.value, nullAddress)| > 0
  {
    var t :| t in assetTransfers.value && t.from == nullAddress && t.asset !in wrappedNative;
    assert t in NullOrigin(assetTransfers.value, nullAddress);
  }

  /** Detect, then generate; an undetected transaction is returned as it
      was. Every input is accepted. */
  method TokenMintContextualizer(transaction: Transaction, nullAddress: Address, wrappedNative: seq<Address>)
    returns (r: Transaction)
    modifies transaction`context
    ensures r == transaction
    ensures !DetectTokenMint(transaction.assetTransfers, transaction.netAssetTransfers, nullAddress, wrappedNative) ==>
      transaction.context == old(transaction.context)
    ensures DetectTokenMint(transaction.assetTransfers, transaction.netAssetTransfers, nullAddress, wrappedNative) ==>
      && |NullOrigin(transaction.assetTransfers.value, nullAddress)| > 0
      && transaction.context == Some(TokenMintContext(transaction.assetTransfers.value, nullAddress))
  {
    var isTokenMint := DetectTokenMint(transaction.assetTransfers, transaction.netAssetTransfers, nullAddress, wrappedNative);
    if !isTokenMint {
      return transaction;
    }
    DetectedMintHasNullOrigin(transaction.assetTransfers, transaction.netAssetTransfers, nullAddress, wrappedNative);
    r := GenerateTokenMintContext(transaction, nullAddress);
  }

  /** `transfers[i]` is the first transfer out of the null address. */
  predicate FirstNullOrigin(transfers: seq<AssetTransfer>, nullAddress: Address, i: int) {
    0 <= i < |transfers| && transfers[i].from == nullAddress
    && forall k :: 0 <= k < i ==> transfers[k].from != nullAddress
  }

  /** The variables describe transfer `t`: `recipient` is its receiver and
      `token` carries its type and asset, its token id only for ERC-721 and
      ERC-1155, and its amount for every type but ERC-721. */
  predicate Describes(variables: map<string, Variable>, t: AssetTransfer) {
    && variables.Keys == {"token", "recipient"}
    && variables["recipient"] == AddressVar(Some(t.to))
    && variables["token"].TokenVar?
    && variables["token"].kind == t.kind && variables["token"].token == Some(t.asset)
    && variables["token"].tokenId == (if t.kind == Erc721 || t.kind == Erc1155 then t.tokenId else None)
    && variables["token"].amount == (if t.kind == Erc721 then None else Some(t.value))
  }

  /** The first null-origin transfer heads the generate filter. */
  lemma {:induction false} NullOriginFirst(transfers: seq<AssetTransfer>, nullAddress: Address)
    requires |NullOrigin(transfers, nullAddress)| > 0
    ensures exists i :: FirstNullOrigin(transfers, nullAddress, i) && transfers[i] == NullOrigin(transfers, nullAddress)[0]
    decreases |transfers|
  {
    if transfers[0].from != nullAddress {
      NullOriginFirst(transfers[1..], nullAddress);
      var i :| FirstNullOrigin(transfers[1..], nullAddress, i) && transfers[1..][i] == NullOrigin(transfers[1..], nullAddress)[0];
      assert transfers[i + 1] == transfers[1..][i];
      assert forall k :: 1 <= k < i + 1 ==> transfers[k] == transfers[1..][k - 1];
      assert FirstNullOrigin(transfers, nullAddress, i + 1);
    } else {
      assert FirstNullOrigin(transfers, nullAddress, 0);
    }
  }

  /** The context describes the first transfer out of the null address,
      whatever its asset. */
  lemma TokenMintContextMeaning(transfers: seq<AssetTransfer>, nullAddress: Address)
    requires exists t :: t in transfers && t.from == nullAddress
    ensures |NullOrigin(transfers, nullAddress)| > 0
    ensures exists i :: FirstNullOrigin(transfers, nullAddress, i)
                        && Describes(TokenMintContext(transfers, nullAddress).variables, transfers[i])
  {
    var t :| t in transfers && t.from == nullAddress;
    assert t in NullOrigin(transfers, nullAddress);
    NullOriginFirst(transfers, nullAddress);
    var i :| FirstNullOrigin(transfers, nullAddress, i) && transfers[i] == NullOrigin(transfers, nullAddress)[0];
  }

  /** When no null-origin transfer is of a wrapped-native asset, generate
      uses the first transfer detect counted as a mint. */
  lemma {:induction false} NullOriginIsMintsWithoutWrapped(
    transfers: seq<AssetTransfer>, nullAddress: Address, wrappedNative: seq<Address>)
    requires forall t :: t in transfers && t.from == nullAddress ==> t.asset !in wrappedNative
    ensures NullOrigin(transfers, nullAddress) == Mints(transfers, nullAddress, wrappedNative)
    decreases |transfers|
  {
    if transfers != [] {
      assert forall t :: t in transfers[1..] ==> t in transfers;
      NullOriginIsMintsWithoutWrapped(transfers[1..], nullAddress, wrappedNative);
    }
  }

  /** Detect skips wrapped-native mints but generate does not: a wrapped
      mint placed before a real one is the token the context reports. */
  lemma WrappedMintMayBeReported()
    ensures var transfers := [AssetTransfer("0x0", "0xuser", "0xweth", Erc20, 1, None),
                              AssetTransfer("0x0", "0xuser", "0xtoken", Erc20, 5, None)];
      var net := [("0x0", NetRow([], [])), ("0xuser", NetRow([], []))];
      && DetectTokenMint(Some(transfers), Some(net), "0x0", ["0xweth"])
      && TokenMintContext(transfers, "0x0").variables["token"] == TokenVar(Erc20, Some("0xweth"), None, Some(1))
  {
    var transfers := [AssetTransfer("0x0", "0xuser", "0xweth", Erc20, 1, None),
                      AssetTransfer("0x0", "0xuser", "0xtoken", Erc20, 5, None)];
    var net := [("0x0", NetRow([], [])), ("0xuser", NetRow([], []))];
    assert transfers[1] in transfers;
    assert KeySet(net) == {"0x0", "0xuser"} by {
      assert net[0].0 == "0x0" && net[1].0 == "0xuser";
      forall a | a in KeySet(net) ensures a == "0x0" || a == "0xuser" {
        var i :| 0 <= i < |net| && net[i].0 == a;
      }
    }
    assert KeySet(net) - {"0x0"} == {"0xuser"};
  }
}
