/** The aggregation shared by the ERC-1155 sale and ERC-721 purchase
    heuristics: a scan of every row of the net transfer table that collects
    NFT recipients, received NFTs and sent payments, and the choice of the
    `userOrUsers`, `tokenOrTokens` and `price` variables from their counts.
    The two heuristics differ only in the NFT kind they look for. */
module NftTrade {
  import opened Types
  import opened Sequences
  import opened PaymentNetting

  /** `data.received.filter((t) => t.type === nft)` */
  function NftsOf(row: NetRow, nft: AssetType): seq<Asset> {
    Select(row.received, {nft})
  }

  /** `data.sent.filter((t) => t.type === 'erc20' || t.type === 'eth')` */
  function PaymentsOf(row: NetRow): seq<Asset> {
    Select(row.sent, PaymentKinds)
  }

  function ToPayment(a: Asset): Payment {
    Payment(a.kind, a.asset, a.value)
  }

  function ToPayments(s: seq<Asset>): seq<Payment> {
    seq(|s|, k requires 0 <= k < |s| => ToPayment(s[k]))
  }

  predicate HasKind(s: seq<Asset>, kind: AssetType) {
    exists x :: x in s && x.kind == kind
  }

  predicate HasPayment(s: seq<Asset>) {
    exists x :: x in s && x.kind in PaymentKinds
  }

  /** The row sends `p` as one of its `eth`/`erc20` entries. */
  predicate Pays(row: NetRow, p: Payment) {
    exists x :: x in row.sent && x.kind in PaymentKinds && ToPayment(x) == p
  }

  lemma NftsOfNonEmpty(row: NetRow, nft: AssetType)
    ensures |NftsOf(row, nft)| > 0 <==> HasKind(row.received, nft)
  {
    if |NftsOf(row, nft)| > 0 {
      assert NftsOf(row, nft)[0] in NftsOf(row, nft);
    }
  }

  /** The payment records pushed for one row. */
  function RowPayments(row: NetRow): seq<Payment> {
    ToPayments(PaymentsOf(row))
  }

  lemma PaymentsOfMembers(row: NetRow, p: Payment)
    ensures p in RowPayments(row) <==> Pays(row, p)
  {
    var sel := PaymentsOf(row);
    var last := ToPayments(sel);
    if p in last {
      var k :| 0 <= k < |last| && last[k] == p;
      assert sel[k] in sel;
    }
    if Pays(row, p) {
      var x :| x in row.sent && x.kind in PaymentKinds && ToPayment(x) == p;
      assert x in sel;
      var k :| 0 <= k < |sel| && sel[k] == x;
      assert last[k] == p;
    }
  }

  /** `receivingAddresses` after the scan of `net`'s rows, in row order. */
  function ReceivingAddresses(net: NetTransfers, nft: AssetType): seq<Address>
    decreases |net|
  {
    if net == [] then []
    else
      var last := net[|net| - 1];
      ReceivingAddresses(net[..|net| - 1], nft) + (if HasKind(last.1.received, nft) then [last.0] else [])
  }

  /** `receivedNfts` after the scan: every received NFT, duplicates kept. */
  function ReceivedNfts(net: NetTransfers, nft: AssetType): seq<Asset>
    decreases |net|
  {
    if net == [] then []
    else ReceivedNfts(net[..|net| - 1], nft) + NftsOf(net[|net| - 1].1, nft)
  }

  /** `sentPayments` after the scan: every sent payment, in row order. */
  function SentPayments(net: NetTransfers): seq<Payment>
    decreases |net|
  {
    if net == [] then []
    else SentPayments(net[..|net| - 1]) + RowPayments(net[|net| - 1].1)
  }

  /** `items.forEach((x) => acc.push(x))` */
  method PushAll(acc: seq<Asset>, items: seq<Asset>) returns (r: seq<Asset>)
    ensures r == acc + items
  {
    r := acc;
    for k := 0 to |items|
      invariant r == acc + items[..k]
    {
      assert items[..k + 1] == items[..k] + [items[k]];
      r := r + [items[k]];
    }
    assert items[..|items|] == items;
  }

  /** `payments.forEach((p) => acc.push({ type, asset, value }))` */
  method PushPayments(acc: seq<Payment>, payments: seq<Asset>) returns (r: seq<Payment>)
    ensures r == acc + ToPayments(payments)
  {
    r := acc;
    for k := 0 to |payments|
      invariant r == acc + ToPayments(payments[..k])
    {
      assert ToPayments(payments[..k + 1]) == ToPayments(payments[..k]) + [ToPayment(payments[k])];
      r := r + [ToPayment(payments[k])];
    }
    assert payments[..|payments|] == payments;
  }

  /** The `for ... of Object.entries(netAssetTransfers)` loop. */
  method ScanRows(net: NetTransfers, nft: AssetType)
    returns (receivingAddresses: seq<Address>, receivedNfts: seq<Asset>, sentPayments: seq<Payment>)
    ensures receivingAddresses == ReceivingAddresses(net, nft)
    ensures receivedNfts == ReceivedNfts(net, nft)
    ensures sentPayments == SentPayments(net)
  {
    receivingAddresses, receivedNfts, sentPayments := [], [], [];
    for i := 0 to |net|
      invariant receivingAddresses == ReceivingAddresses(net[..i], nft)
      invariant receivedNfts == ReceivedNfts(net[..i], nft)
      invariant sentPayments == SentPayments(net[..i])
    {
      var (address, data) := net[i];
      assert net[..i + 1][..i] == net[..i] && net[..i + 1][i] == net[i];
      var nftTransfers := NftsOf(data, nft);
      var paymentTransfers := PaymentsOf(data);
      NftsOfNonEmpty(data, nft);
      if |nftTransfers| > 0 {
        receivingAddresses := receivingAddresses + [address];
        receivedNfts := PushAll(receivedNfts, nftTransfers);
      }
      if |paymentTransfers| > 0 {
        sentPayments := PushPayments(sentPayments, paymentTransfers);
      } else {
        assert ToPayments(paymentTransfers) == [];
      }
    }
    assert net[..|net|] == net;
  }

  /** An address is a receiving address iff its row receives at least one
      NFT of the kind under test. */
  lemma {:induction false} ReceivingAddressesMembers(net: NetTransfers, nft: AssetType, a: Address)
    ensures a in ReceivingAddresses(net, nft) <==>
      exists i :: 0 <= i < |net| && net[i].0 == a && HasKind(net[i].1.received, nft)
    decreases |net|
  {
    if net != [] {
      var n := |net| - 1;
      var init := net[..n];
      ReceivingAddressesMembers(init, nft, a);
      if a in ReceivingAddresses(net, nft) && a in ReceivingAddresses(init, nft) {
        var i :| 0 <= i < n && init[i].0 == a && HasKind(init[i].1.received, nft);
        assert init[i] == net[i];
      }
      if exists i :: 0 <= i < |net| && net[i].0 == a && HasKind(net[i].1.received, nft) {
        var i :| 0 <= i < |net| && net[i].0 == a && HasKind(net[i].1.received, nft);
        if i < n {
          assert init[i] == net[i];
        }
      }
    }
  }

  /** Each receiving address is listed once, because rows have distinct keys. */
  lemma {:induction false} ReceivingAddressesDistinct(net: NetTransfers, nft: AssetType)
    requires DistinctKeys(net)
    ensures Distinct(ReceivingAddresses(net, nft))
    decreases |net|
  {
    if net != [] {
      var n := |net| - 1;
      assert DistinctKeys(net[..n]);
      ReceivingAddressesDistinct(net[..n], nft);
      ReceivingAddressesMembers(net[..n], nft, net[n].0);
      assert net[n].0 !in ReceivingAddresses(net[..n], nft);
    }
  }

  /** `receivedNfts` holds exactly the received entries of the kind under
      test, over all rows. */
  lemma {:induction false} ReceivedNftsMembers(net: NetTransfers, nft: AssetType, x: Asset)
    ensures x in ReceivedNfts(net, nft) <==>
      x.kind == nft && exists i :: 0 <= i < |net| && x in net[i].1.received
    decreases |net|
  {
    if net != [] {
      var n := |net| - 1;
      var init := net[..n];
      ReceivedNftsMembers(init, nft, x);
      assert ReceivedNfts(net, nft) == ReceivedNfts(init, nft) + NftsOf(net[n].1, nft);
      assert forall i :: 0 <= i < n ==> init[i] == net[i];
      if x.kind == nft && exists i :: 0 <= i < |net| && x in net[i].1.received {
        var i :| 0 <= i < |net| && x in net[i].1.received;
        assert i < n ==> x in init[i].1.received;
      }
    }
  }

  /** Some row of `net` sends `p` as an `eth`/`erc20` entry. */
  ghost predicate SentBySomeRow(net: NetTransfers, p: Payment) {
    exists i :: 0 <= i < |net| && Pays(net[i].1, p)
  }

  lemma SentBySomeRowLast(net: NetTransfers, p: Payment)
    requires net != []
    ensures SentBySomeRow(net, p) <==> SentBySomeRow(net[..|net| - 1], p) || Pays(net[|net| - 1].1, p)
  {
    var n := |net| - 1;
    if SentBySomeRow(net, p) {
      var i :| 0 <= i < |net| && Pays(net[i].1, p);
      if i < n {
        assert net[..n][i] == net[i];
      }
    }
    if SentBySomeRow(net[..n], p) {
      var i :| 0 <= i < n && Pays(net[..n][i].1, p);
      assert net[..n][i] == net[i];
    }
  }

  /** `sentPayments` holds exactly the payments some row sends. */
  lemma {:induction false} SentPaymentsMembers(net: NetTransfers, p: Payment)
    ensures p in SentPayments(net) <==> SentBySomeRow(net, p)
    decreases |net|
  {
    if net != [] {
      var n := |net| - 1;
      SentPaymentsMembers(net[..n], p);
      SentBySomeRowLast(net, p);
      PaymentsOfMembers(net[n].1, p);
    }
  }

  /** When some row sends a payment, the scan collects at least one. */
  lemma SomePaymentSent(net: NetTransfers, i: nat)
    requires i < |net| && HasPayment(net[i].1.sent)
    ensures |SentPayments(net)| > 0
  {
    var x :| x in net[i].1.sent && x.kind in PaymentKinds;
    assert Pays(net[i].1, ToPayment(x));
    SentPaymentsMembers(net, ToPayment(x));
  }

  /** Every entry received, over all rows, in row order. */
  function AllReceived(net: NetTransfers): seq<Asset>
    decreases |net|
  {
    if net == [] then [] else AllReceived(net[..|net| - 1]) + net[|net| - 1].1.received
  }

  /** Every entry sent, over all rows, in row order. */
  function AllSent(net: NetTransfers): seq<Asset>
    decreases |net|
  {
    if net == [] then [] else AllSent(net[..|net| - 1]) + net[|net| - 1].1.sent
  }

  /** The `eth`/`erc20` entries the scan pushes, before their reduction to
      payment records. */
  function SentEntries(net: NetTransfers): seq<Asset>
    decreases |net|
  {
    if net == [] then [] else SentEntries(net[..|net| - 1]) + PaymentsOf(net[|net| - 1].1)
  }

  /** `receivedNfts` holds each received entry of the kind under test as
      often as the table receives it, and nothing else; so its length is the
      number of such entries. */
  lemma {:induction false} ReceivedNftsCount(net: NetTransfers, nft: AssetType)
    ensures multiset(ReceivedNfts(net, nft)) == multiset(Select(AllReceived(net), {nft}))
    ensures |ReceivedNfts(net, nft)| == |Select(AllReceived(net), {nft})|
    decreases |net|
  {
    if net != [] {
      var n := |net| - 1;
      ReceivedNftsCount(net[..n], nft);
      var all := AllReceived(net);
      assert all == AllReceived(net[..n]) + net[n].1.received;
      assert ReceivedNfts(net, nft) == ReceivedNfts(net[..n], nft) + NftsOf(net[n].1, nft);
      SelectMultisetAppend(AllReceived(net[..n]), net[n].1.received, {nft});
      assert |multiset(ReceivedNfts(net, nft))| == |multiset(Select(all, {nft}))|;
    }
  }

  /** The pushed `eth`/`erc20` entries are each sent entry of those types, as
      often as the table sends it, and nothing else. */
  lemma {:induction false} SentEntriesCount(net: NetTransfers)
    ensures multiset(SentEntries(net)) == multiset(Select(AllSent(net), PaymentKinds))
    decreases |net|
  {
    if net != [] {
      var n := |net| - 1;
      SentEntriesCount(net[..n]);
      var all := AllSent(net);
      assert all == AllSent(net[..n]) + net[n].1.sent;
      assert SentEntries(net) == SentEntries(net[..n]) + PaymentsOf(net[n].1);
      SelectMultisetAppend(AllSent(net[..n]), net[n].1.sent, PaymentKinds);
    }
  }

  lemma ToPaymentsAppend(a: seq<Asset>, b: seq<Asset>)
    ensures ToPayments(a + b) == ToPayments(a) + ToPayments(b)
  {
    assert forall k :: 0 <= k < |a + b| ==> ToPayments(a + b)[k] == (ToPayments(a) + ToPayments(b))[k];
  }

  /** `sentPayments` is the pushed entries reduced to type, asset and value,
      one record per entry, in row order. */
  lemma {:induction false} SentPaymentsEntries(net: NetTransfers)
    ensures SentPayments(net) == ToPayments(SentEntries(net))
    decreases |net|
  {
    if net != [] {
      var n := |net| - 1;
      SentPaymentsEntries(net[..n]);
      ToPaymentsAppend(SentEntries(net[..n]), PaymentsOf(net[n].1));
    }
  }

  predicate SameContract(nfts: seq<Asset>) {
    |nfts| > 0 && forall i :: 0 <= i < |nfts| ==> nfts[i].asset == nfts[0].asset
  }

  /** The typed variable for a single received NFT: `token` and `tokenId`,
      and for ERC-1155 also the quantity `value`. */
  function NftVariable(nft: Asset, kind: AssetType): (v: Variable)
    ensures v.TokenVar? && v.kind == kind && v.token == Some(nft.asset) && v.tokenId == nft.tokenId
    ensures v.amount.Some? <==> kind == Erc1155
    ensures v.amount.Some? ==> v.amount.value == nft.value
  {
    TokenVar(kind, Some(nft.asset), nft.tokenId, if kind == Erc1155 then Some(nft.value) else None)
  }

  /** `userOrUsers`: emphasis "<N> Users" for several receiving addresses,
      else the address of the first (absent when there is none). */
  function UserOrUsers(receivingAddresses: seq<Address>): (v: Variable)
    ensures v.Emphasis? <==> |receivingAddresses| > 1
    ensures v.Emphasis? ==> v.count == |receivingAddresses| && v.noun == "Users"
    ensures !v.Emphasis? ==> v.AddressVar? && (v.address.Some? <==> |receivingAddresses| == 1)
    ensures v.AddressVar? && v.address.Some? ==> v.address.value == receivingAddresses[0]
  {
    if |receivingAddresses| > 1 then Emphasis(|receivingAddresses|, "Users")
    else AddressVar(if |receivingAddresses| == 0 then None else Some(receivingAddresses[0]))
  }

  /** `tokenOrTokens`, chosen from the received NFTs and the set of their
      contracts. */
  function TokenOrTokens(receivedNfts: seq<Asset>, kind: AssetType): (v: Variable)
    ensures |receivedNfts| == 1 ==> v == NftVariable(receivedNfts[0], kind)
    ensures |receivedNfts| != 1 && SameContract(receivedNfts) ==> v == AddressVar(Some(receivedNfts[0].asset))
    ensures |receivedNfts| != 1 && !SameContract(receivedNfts) ==> v == Emphasis(|receivedNfts|, "NFTs")
  {
    var contracts := seq(|receivedNfts|, k requires 0 <= k < |receivedNfts| => receivedNfts[k].asset);
    assert forall k :: 0 <= k < |receivedNfts| ==> contracts[k] == receivedNfts[k].asset;
    var receivedNftContracts := Dedup(contracts);
    DedupSingle(contracts);
    if |receivedNfts| == 1 then NftVariable(receivedNfts[0], kind)
    else if |receivedNftContracts| == 1 then
      DedupHead(contracts);
      AddressVar(Some(receivedNftContracts[0]))
    else Emphasis(|receivedNfts|, "NFTs")
  }

  /** `price`: emphasis "<N> Assets" for several paid assets, else the one
      netted payment as an `eth` or `erc20` variable. */
  function Price(totalPayments: seq<Payment>): (v: Variable)
    requires |totalPayments| > 0
    ensures v.Emphasis? <==> |totalPayments| > 1
    ensures v.Emphasis? ==> v.count == |totalPayments| && v.noun == "Assets"
    ensures !v.Emphasis? ==> v.TokenVar? && v.tokenId == None && v.amount == Some(totalPayments[0].value)
    ensures v.TokenVar? ==> (v.kind == Eth <==> totalPayments[0].kind == Eth)
    ensures v.TokenVar? && v.kind == Eth ==> v.token == None
    ensures v.TokenVar? && v.kind != Eth ==> v.kind == Erc20 && v.token == Some(totalPayments[0].asset)
  {
    if |totalPayments| > 1 then Emphasis(|totalPayments|, "Assets")
    else if totalPayments[0].kind == Eth then TokenVar(Eth, None, None, Some(totalPayments[0].value))
    else TokenVar(Erc20, Some(totalPayments[0].asset), None, Some(totalPayments[0].value))
  }

  /** The three variables, computed from the whole table. */
  function NftTradeVariables(net: NetTransfers, nft: AssetType): (r: map<string, Variable>)
    requires |SentPayments(net)| > 0
    ensures "userOrUsers" in r && "tokenOrTokens" in r && "price" in r
    ensures r.Keys == {"userOrUsers", "tokenOrTokens", "price"}
    ensures r["price"].Emphasis? <==> |PaidAssets(SentPayments(net))| > 1
    ensures r["tokenOrTokens"].Emphasis? ==> r["tokenOrTokens"].count == |Select(AllReceived(net), {nft})|
    ensures DistinctKeys(net) && |Receivers(net, nft)| > 1 ==> r["userOrUsers"] == Emphasis(|Receivers(net, nft)|, "Users")
  {
    var ps := SentPayments(net);
    var userOrUsers := UserOrUsers(ReceivingAddresses(net, nft));
    var tokenOrTokens := TokenOrTokens(ReceivedNfts(net, nft), nft);
    var price := Price(NetByAsset(ps));
    assert price.Emphasis? <==> |PaidAssets(ps)| > 1 by {
      PriceMeaning(ps);
      assert ps[0].asset in PaidAssets(ps);
    }
    assert tokenOrTokens.Emphasis? ==> tokenOrTokens.count == |Select(AllReceived(net), {nft})| by {
      ReceivedNftsCount(net, nft);
    }
    assert DistinctKeys(net) ==> UserOrUsersHolds(net, nft) by {
      if DistinctKeys(net) {
        UserOrUsersMeaning(net, nft);
      }
    }
    map["userOrUsers" := userOrUsers, "tokenOrTokens" := tokenOrTokens, "price" := price]
  }

  /** The summary both heuristics attach: category `NFT`, title
      "NFT Purchase", the verb `bought`. */
  const NftSummaries: Summaries :=
    Summaries("NFT", Summary("NFT Purchase", "[[userOrUsers]] [[bought]] [[tokenOrTokens]] for [[price]]",
                             map["bought" := ContextAction("bought")]))

  /** The addresses whose row receives an NFT of the kind under test. */
  function Receivers(net: NetTransfers, nft: AssetType): set<Address> {
    set i | 0 <= i < |net| && HasKind(net[i].1.received, nft) :: net[i].0
  }

  ghost predicate UserOrUsersHolds(net: NetTransfers, nft: AssetType) {
    |Receivers(net, nft)| > 1 ==> UserOrUsers(ReceivingAddresses(net, nft)) == Emphasis(|Receivers(net, nft)|, "Users")
  }

  /** `userOrUsers` counts the distinct NFT recipients: emphasis for more
      than one, otherwise the sole recipient's address, or no address. */
  lemma UserOrUsersMeaning(net: NetTransfers, nft: AssetType)
    requires DistinctKeys(net)
    ensures var v := UserOrUsers(ReceivingAddresses(net, nft));
      && (|Receivers(net, nft)| > 1 ==> v == Emphasis(|Receivers(net, nft)|, "Users"))
      && (forall a :: Receivers(net, nft) == {a} ==> v == AddressVar(Some(a)))
      && (Receivers(net, nft) == {} ==> v == AddressVar(None))
  {
    var ra := ReceivingAddresses(net, nft);
    ReceivingAddressesDistinct(net, nft);
    DistinctCard(ra);
    assert (set x | x in ra) == Receivers(net, nft) by {
      forall a ensures a in ra <==> a in Receivers(net, nft) {
        ReceivingAddressesMembers(net, nft, a);
      }
    }
    if |ra| == 1 {
      assert ra[0] in Receivers(net, nft);
    }
  }

  /** The distinct assets paid in. */
  function PaidAssets(ps: seq<Payment>): set<Address> {
    set p | p in ps :: p.asset
  }

  /** `totalPayments` has one entry per distinct paid asset. */
  lemma NetByAssetCount(ps: seq<Payment>)
    ensures |NetByAsset(ps)| == |PaidAssets(ps)|
  {
    NetByAssetEntries(ps);
    var d := Dedup(AssetsOf(ps));
    DistinctCard(d);
    assert (set x | x in d) == PaidAssets(ps) by {
      forall a ensures a in d <==> a in PaidAssets(ps) {
        if a in AssetsOf(ps) {
          var k :| 0 <= k < |ps| && AssetsOf(ps)[k] == a;
          assert ps[k] in ps;
        }
        if a in PaidAssets(ps) {
          var p :| p in ps && p.asset == a;
          var k :| 0 <= k < |ps| && ps[k] == p;
          assert AssetsOf(ps)[k] == a;
        }
      }
    }
    assert |NetByAsset(ps)| == |d| by { assert |AssetsOf(NetByAsset(ps))| == |NetByAsset(ps)|; }
  }

  /** A single netted entry is in the first payment's asset and holds the
      grand total, with the type of the last payment. */
  lemma SingleEntry(ps: seq<Payment>)
    requires |NetByAsset(ps)| == 1
    ensures |ps| > 0 && NetByAsset(ps)[0].asset == ps[0].asset && NetByAsset(ps)[0].value == Total(ps)
    ensures LastKind(ps, ps[0].asset) == Some(NetByAsset(ps)[0].kind)
  {
    var t := NetByAsset(ps);
    NetByAssetEntries(ps);
    DedupHead(AssetsOf(ps));
    assert t[0].asset == ps[0].asset by { assert AssetsOf(t)[0] == Dedup(AssetsOf(ps))[0]; }
    NetByAssetConserves(ps);
    assert Total(t) == t[0].value;
  }

  /** `price` counts the distinct paid assets; with a single one it carries
      the grand total of the payments, typed by the last payment. */
  lemma PriceMeaning(ps: seq<Payment>)
    requires |ps| > 0
    ensures var v := Price(NetByAsset(ps));
      var assets := PaidAssets(ps);
      && (|assets| > 1 ==> v == Emphasis(|assets|, "Assets"))
      && (|assets| == 1 && LastKind(ps, ps[0].asset) == Some(Eth) ==>
            v == TokenVar(Eth, None, None, Some(Total(ps))))
      && (|assets| == 1 && LastKind(ps, ps[0].asset) != Some(Eth) ==>
            v == TokenVar(Erc20, Some(ps[0].asset), None, Some(Total(ps))))
  {
    NetByAssetCount(ps);
    if |NetByAsset(ps)| == 1 {
      SingleEntry(ps);
    }
  }

}
