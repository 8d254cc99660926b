/** The ERC-1155 sale heuristic: the initiator sends an ERC-1155 token and
    receives a payment. */
module Erc1155Sale {
  import opened Types
  import opened PaymentNetting
  import opened NftTrade

  /** Only the initiator's row is inspected: it must send at least one
      `erc1155` entry and receive at least one `eth`/`erc20` entry. */
  function DetectErc1155Sale(from: Address, netAssetTransfers: Option<NetTransfers>): (r: bool)
    ensures netAssetTransfers.None? ==> !r
    ensures r ==> from in KeySet(netAssetTransfers.value)
  {
    if netAssetTransfers.None? then false
    else
      var transfers := Lookup(netAssetTransfers.value, from);
      if transfers.None? then false
      else
        var nftsSent := Select(transfers.value.sent, {Erc1155});
        var tokenReceived := Select(transfers.value.received, PaymentKinds);
        |nftsSent| > 0 && |tokenReceived| > 0
  }

  /** Detection holds iff the table has a row for the initiator that sends
      an ERC-1155 token and receives a payment; no other row matters. */
  lemma DetectErc1155SaleRow(from: Address, net: NetTransfers)
    requires DistinctKeys(net)
    ensures DetectErc1155Sale(from, Some(net)) <==>
      exists i :: 0 <= i < |net| && net[i].0 == from
        && HasKind(net[i].1.sent, Erc1155) && HasPayment(net[i].1.received)
  {
    if exists i :: 0 <= i < |net| && net[i].0 == from {
      var i :| 0 <= i < |net| && net[i].0 == from;
      assert Lookup(net, from) == Some(net[i].1);
      assert from in KeySet(net);
    } else {
      assert from !in KeySet(net);
    }
  }

  /** The context built for a sale. */
  function Erc1155SaleContext(net: NetTransfers): (r: Context)
    requires |SentPayments(net)| > 0
    ensures r.variables.Keys == {"userOrUsers", "tokenOrTokens", "price"}
    ensures |ReceivedNfts(net, Erc1155)| == 1 ==>
      r.variables["tokenOrTokens"].TokenVar? && r.variables["tokenOrTokens"].kind == Erc1155
      && r.variables["tokenOrTokens"].amount == Some(ReceivedNfts(net, Erc1155)[0].value)
    ensures r.summaries.category == "NFT" && r.summaries.en.title == "NFT Purchase"
    ensures "bought" in r.summaries.en.variables && r.summaries.en.variables["bought"] == ContextAction("bought")
  {
    Context(NftTradeVariables(net, Erc1155), NftSummaries)
  }

  /** Scans every row, nets the payments and writes `context`; nothing
      else of the transaction changes. */
  method GenerateErc1155SaleContext(transaction: Transaction) returns (r: Transaction)
    requires transaction.netAssetTransfers.Some?
    requires |SentPayments(transaction.netAssetTransfers.value)| > 0
    modifies transaction`context
    ensures r == transaction
    ensures transaction.context == Some(Erc1155SaleContext(transaction.netAssetTransfers.value))
  {
    var net := transaction.netAssetTransfers.value;
    var receivingAddresses, receivedNfts, sentPayments := ScanRows(net, Erc1155);
    var totalPayments := NetPayments(sentPayments);
    transaction.context := Some(Context(
      map[
        "userOrUsers" := UserOrUsers(receivingAddresses),
        "tokenOrTokens" := TokenOrTokens(receivedNfts, Erc1155),
        "price" := Price(totalPayments)
      ],
      NftSummaries));
    r := transaction;
  }

  /** Detect, then generate; an undetected transaction is returned as it
      was. The caller must not pass a detected sale whose table records no
      sent payment: the source fails on such a transaction. */
  method Erc1155SaleContextualizer(transaction: Transaction) returns (r: Transaction)
    requires DetectErc1155Sale(transaction.from, transaction.netAssetTransfers) ==>
      |SentPayments(transaction.netAssetTransfers.value)| > 0
    modifies transaction`context
    ensures r == transaction
    ensures !DetectErc1155Sale(transaction.from, transaction.netAssetTransfers) ==>
      transaction.context == old(transaction.context)
    ensures DetectErc1155Sale(transaction.from, transaction.netAssetTransfers) ==>
      transaction.context == Some(Erc1155SaleContext(transaction.netAssetTransfers.value))
  {
    var isErc1155Sale := DetectErc1155Sale(transaction.from, transaction.netAssetTransfers);
    if !isErc1155Sale {
      return transaction;
    }
    r := GenerateErc1155SaleContext(transaction);
  }

  /** Detection does not guarantee that `price` can be built: the
      initiator's received payment need not appear as any row's sent
      payment, and then `totalPayments` is empty. */
  lemma DetectedSaleMayLackPayment()
    ensures var net := [("0xseller", NetRow([Asset(Erc1155, "0xnft", 3, Some("7"))], [Asset(Eth, "eth", 100, None)]))];
      DetectErc1155Sale("0xseller", Some(net)) && SentPayments(net) == []
  {
    var row := NetRow([Asset(Erc1155, "0xnft", 3, Some("7"))], [Asset(Eth, "eth", 100, None)]);
    var net := [("0xseller", row)];
    assert Lookup(net, "0xseller") == Some(row);
    assert Select(row.sent, {Erc1155}) == row.sent;
    assert Select(row.received, PaymentKinds) == row.received;
    assert Select(row.sent, PaymentKinds) == [];
    assert net[..0] == [];
  }
}
