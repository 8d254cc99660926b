/** The ERC-721 purchase heuristic: the initiator receives an ERC-721 token
    and sends a payment. */
module Erc721Purchase {
  import opened Types
  import opened PaymentNetting
  import opened NftTrade

  /** Only the initiator's row is inspected: it must receive at least one
      `erc721` entry and send at least one `eth`/`erc20` entry. */
  function DetectErc721Purchase(from: Address, netAssetTransfers: Option<NetTransfers>): (r: bool)
    ensures netAssetTransfers.None? ==> !r
    ensures r ==> from in KeySet(netAssetTransfers.value)
  {
    if netAssetTransfers.None? then false
    else
      var transfers := Lookup(netAssetTransfers.value, from);
      if transfers.None? then false
      else
        var nftsReceived := Select(transfers.value.received, {Erc721});
        var tokenSent := Select(transfers.value.sent, PaymentKinds);
        |nftsReceived| > 0 && |tokenSent| > 0
  }

  /** Detection holds iff the table has a row for the initiator that
      receives an ERC-721 token and sends a payment. */
  lemma DetectErc721PurchaseRow(from: Address, net: NetTransfers)
    requires DistinctKeys(net)
    ensures DetectErc721Purchase(from, Some(net)) <==>
      exists i :: 0 <= i < |net| && net[i].0 == from
        && HasKind(net[i].1.received, Erc721) && HasPayment(net[i].1.sent)
  {
    if exists i :: 0 <= i < |net| && net[i].0 == from {
      var i :| 0 <= i < |net| && net[i].0 == from;
      assert Lookup(net, from) == Some(net[i].1);
      assert from in KeySet(net);
    } else {
      assert from !in KeySet(net);
    }
  }

  /** A detected purchase always has a payment to price: the initiator's own
      sent payment is collected by the scan. */
  lemma DetectedPurchaseHasPayment(from: Address, net: NetTransfers)
    requires DetectErc721Purchase(from, Some(net))
    ensures |SentPayments(net)| > 0
  {
    var row := Lookup(net, from).value;
    var i :| 0 <= i < |net| && net[i] == (from, row);
    var x :| x in Select(row.sent, PaymentKinds);
    assert x in row.sent && x.kind in PaymentKinds;
    SomePaymentSent(net, i);
  }

  /** The context built for a purchase. */
  function Erc721PurchaseContext(net: NetTransfers): (r: Context)
    requires |SentPayments(net)| > 0
    ensures r.variables.Keys == {"userOrUsers", "tokenOrTokens", "price"}
    ensures |ReceivedNfts(net, Erc721)| == 1 ==>
      r.variables["tokenOrTokens"].TokenVar? && r.variables["tokenOrTokens"].kind == Erc721
      && r.variables["tokenOrTokens"].amount == None
    ensures r.summaries.category == "NFT" && r.summaries.en.title == "NFT Purchase"
    ensures "bought" in r.summaries.en.variables && r.summaries.en.variables["bought"] == ContextAction("bought")
  {
    Context(NftTradeVariables(net, Erc721), NftSummaries)
  }

  /** Scans every row, nets the payments and writes `context`; nothing
      else of the transaction changes. */
  method GenerateErc721PurchaseContext(transaction: Transaction) returns (r: Transaction)
    requires transaction.netAssetTransfers.Some?
    requires |SentPayments(transaction.netAssetTransfers.value)| > 0
    modifies transaction`context
    ensures r == transaction
    ensures transaction.context == Some(Erc721PurchaseContext(transaction.netAssetTransfers.value))
  {
    var net := transaction.netAssetTransfers.value;
    var receivingAddresses, receivedNfts, sentPayments := ScanRows(net, Erc721);
    var totalPayments := NetPayments(sentPayments);
    transaction.context := Some(Context(
      map[
        "userOrUsers" := UserOrUsers(receivingAddresses),
        "tokenOrTokens" := TokenOrTokens(receivedNfts, Erc721),
        "price" := Price(totalPayments)
      ],
      NftSummaries));
    r := transaction;
  }

  /** Detect, then generate; an undetected transaction is returned as it
      was. Every input is accepted. */
  method Erc721PurchaseContextualizer(transaction: Transaction) returns (r: Transaction)
    modifies transaction`context
    ensures r == transaction
    ensures !DetectErc721Purchase(transaction.from, transaction.netAssetTransfers) ==>
      transaction.context == old(transaction.context)
    ensures DetectErc721Purchase(transaction.from, transaction.netAssetTransfers) ==>
      && |SentPayments(transaction.netAssetTransfers.value)| > 0
      && transaction.context == Some(Erc721PurchaseContext(transaction.netAssetTransfers.value))
  {
    var isErc721Purchase := DetectErc721Purchase(transaction.from, transaction.netAssetTransfers);
    if !isErc721Purchase {
      return transaction;
    }
    DetectedPurchaseHasPayment(transaction.from, transaction.netAssetTransfers.value);
    r := GenerateErc721PurchaseContext(transaction);
  }
}
