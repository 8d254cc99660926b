# Asset-transfer heuristics, modelled in Dafny

This project models three transaction classification heuristics: ERC-1155 sale, ERC-721 purchase and token mint.
Each heuristic reads a decoded transaction and has three parts:

- a total `detect` predicate;
- a `generate` builder that writes a `context` onto the transaction: typed variables plus a fixed summary template;
- a `contextualizer` that runs `generate` only when `detect` holds.

## Modules

- `Sequences` (`sequences.dfy`): distinctness, and `Dedup`, the order-keeping `Array.from(new Set(...))`.
- `Types` (`types.dfy`): the data model.
  - Asset types, `Asset`, the per-address `NetRow`, and the net transfer table. The table is a sequence of (address, row) pairs in insertion order, because the heuristics depend on row order.
  - Transfers, context variables, summaries.
  - The `Transaction` class, whose `context` field is what the heuristics write.
- `PaymentNetting` (`payment_netting.dfy`): the `reduce` that nets the collected payments per asset identifier.
  - `NetPayments` is the loop over a dictionary accumulator with key insertion order, followed by `Object.values`.
  - It is proved equal to the specification fold `NetByAsset`.
  - `NetByAsset` is proved to give one entry per distinct asset, in first-payment order. Each entry carries the sum of that asset's payments and the type of its last payment, and the grand total is conserved.
- `NftTrade` (`nft_trade.dfy`): what the ERC-1155 sale and ERC-721 purchase builders share. They differ only in the NFT kind.
  - `ScanRows` is the loop over every row. It is proved equal to three specification functions, and lemmas characterize their members.
  - Further lemmas give their counts: every received NFT and every sent payment entry of the table is collected as many times as it occurs, in row order.
  - It also chooses `userOrUsers`, `tokenOrTokens` and `price` from counts, with lemmas stating what each choice means.
- `Erc1155Sale`, `Erc721Purchase`, `TokenMint`: detect, generate and contextualize for each heuristic.
  - Generate and the contextualizers are methods that change only `transaction.context` (`modifies transaction`context`).

## Code versus doc comments

The code is modelled, not the doc comments.

- The detection comment of the ERC-1155 sale (`src/heuristics/erc1155Sale.ts:13-20`) speaks of "exactly 1 asset" and "no other recipients". The code only asks that the initiator's row send at least one ERC-1155 entry and receive at least one `eth`/`erc20` entry. `DetectErc1155SaleRow` states that condition.
- The ERC-721 detection comment (`src/heuristics/erc721Purchase.ts:14-21`) similarly describes more than the code checks.
- Token-mint detection ignores wrapped-native assets, but its builder takes the first transfer out of the null address, wrapped or not. `WrappedMintMayBeReported` exhibits a detected mint whose reported token is the wrapped one.

Two gaps are also recorded:

- ERC-721 detection implies that the builder's `totalPayments[0]` exists (`DetectedPurchaseHasPayment`).
- ERC-1155 detection does not imply it: the seller's received payment need not be any row's sent payment (`DetectedSaleMayLackPayment`).

## Model

| member | source | states |
|---|---|---|
| Sequences.Dedup | src/heuristics/erc1155Sale.ts:74-76 | the deduplicated contract list holds exactly the elements of its input, each once, and is no longer than the input |
| Sequences.DedupOrder | src/heuristics/erc1155Sale.ts:74-76 | deduplication keeps first-occurrence order: of two kept elements, the earlier occurs in the input before the later one first does |
| Sequences.DedupHead | src/heuristics/erc1155Sale.ts:107-111 | the first distinct contract is the first NFT's contract |
| Sequences.DedupSingle | src/heuristics/erc1155Sale.ts:107-111 | there is exactly one distinct contract iff the list is non-empty and all its elements are equal |
| Types.Lookup | src/heuristics/erc1155Sale.ts:35 | indexing the table by an address finds a row iff the address is a key; with distinct keys it is that address's row |
| Types.Select | src/heuristics/erc1155Sale.ts:36-39 | a type filter keeps exactly the entries of the listed types, and is non-empty iff one exists |
| Types.SelectCount | src/heuristics/erc1155Sale.ts:36-39 | a type filter keeps each entry of a listed type as many times as it occurs, and no other entry |
| Types.SelectMultisetAppend | src/heuristics/erc1155Sale.ts:55-61 | filtering two lists joined together keeps, with their counts, the entries each part's filter keeps |
| PaymentNetting.Upsert | src/heuristics/erc1155Sale.ts:78-86 | one reduce step leaves the entry list non-empty and grows it by at most one entry |
| PaymentNetting.UpsertAssets | src/heuristics/erc1155Sale.ts:79-85 | one reduce step adds the payment's asset to the keys and no other; the list grows exactly when that asset is new |
| PaymentNetting.NetByAsset | src/heuristics/erc1155Sale.ts:77-88 | `totalPayments` is non-empty iff some payment was collected |
| PaymentNetting.UpsertExisting | src/heuristics/erc1155Sale.ts:79-85 | a payment in an asset already present rewrites that asset's entry with the new type and the summed value, in place |
| PaymentNetting.UpsertNew | src/heuristics/erc1155Sale.ts:79-85 | a payment in a new asset appends an entry with its type, asset and value |
| PaymentNetting.NetByAssetEntries | src/heuristics/erc1155Sale.ts:77-88 | one entry per distinct paid asset, in first-payment order; each entry's value is the sum of that asset's payments and its type is the last such payment's |
| PaymentNetting.NetByAssetDistinct | src/heuristics/erc1155Sale.ts:77-88 | no asset has two entries in `totalPayments` |
| PaymentNetting.UpsertTotal | src/heuristics/erc1155Sale.ts:82-84 | one reduce step raises the grand total by exactly the payment's value |
| PaymentNetting.NetByAssetConserves | src/heuristics/erc1155Sale.ts:77-88 | netting conserves the grand total of all collected payments |
| PaymentNetting.RepresentsStepExisting | src/heuristics/erc1155Sale.ts:78-87 | updating an existing key of the accumulator object keeps it in step with the specification entries |
| PaymentNetting.RepresentsStepNew | src/heuristics/erc1155Sale.ts:78-87 | adding a new key to the accumulator object appends it to the key order and keeps it in step with the specification entries |
| PaymentNetting.ValuesInKeyOrder | src/heuristics/erc1155Sale.ts:77 | `Object.values` of the accumulator, taken in key insertion order, is the specification's entry list |
| PaymentNetting.NetPayments | src/heuristics/erc1155Sale.ts:77-88 | the reduce with an object accumulator followed by `Object.values` yields exactly `NetByAsset` of the collected payments |
| NftTrade.NftsOfNonEmpty | src/heuristics/erc1155Sale.ts:55-59 | a row's NFT filter is non-empty iff the row receives an NFT of that kind |
| NftTrade.PaymentsOfMembers | src/heuristics/erc1155Sale.ts:63-70 | the records pushed for a row are exactly its sent `eth`/`erc20` entries, reduced to type, asset and value |
| NftTrade.PushAll | src/heuristics/erc1155Sale.ts:61 | the `forEach` push appends the received NFTs in order |
| NftTrade.PushPayments | src/heuristics/erc1155Sale.ts:64-70 | the `forEach` push appends one payment record per payment entry, in order |
| NftTrade.ScanRows | src/heuristics/erc1155Sale.ts:54-72 | the loop over all rows produces exactly the specified receiving addresses, received NFTs and sent payments |
| NftTrade.ReceivingAddressesMembers | src/heuristics/erc1155Sale.ts:54-60 | an address is a receiving address iff its row receives an NFT of the kind under test |
| NftTrade.ReceivingAddressesDistinct | src/heuristics/erc1155Sale.ts:54-60 | with distinct table keys, every receiving address is listed once |
| NftTrade.ReceivedNftsMembers | src/heuristics/erc1155Sale.ts:55-61 | an entry is among the received NFTs iff it is of the kind under test and some row receives it |
| NftTrade.SentPaymentsMembers | src/heuristics/erc1155Sale.ts:63-71 | a payment record is collected iff some row sends a matching `eth`/`erc20` entry |
| NftTrade.SomePaymentSent | src/heuristics/erc1155Sale.ts:63-71 | when any row sends a payment, `sentPayments` is non-empty |
| NftTrade.ReceivedNftsCount | src/heuristics/erc1155Sale.ts:55-61 | `receivedNfts` holds each entry of the kind under test as often as the rows receive it, and nothing else; its length is the number of such entries |
| NftTrade.SentEntriesCount | src/heuristics/erc1155Sale.ts:56-70 | the pushed payment entries are each sent `eth`/`erc20` entry, as often as the rows send it, and nothing else |
| NftTrade.SentPaymentsEntries | src/heuristics/erc1155Sale.ts:63-71 | `sentPayments` is the pushed entries reduced to type, asset and value, one record per entry, in row order |
| NftTrade.NftVariable | src/heuristics/erc1155Sale.ts:100-106 | a single received NFT gives a token variable of the kind under test with its contract and token id; the quantity is present exactly for ERC-1155 |
| NftTrade.UserOrUsers | src/heuristics/erc1155Sale.ts:92-98 | emphasis exactly when there are more than one receiving addresses, with their count and "Users"; otherwise an address variable, holding the first receiving address when there is exactly one and no address when there is none |
| NftTrade.Price | src/heuristics/erc1155Sale.ts:116-131 | emphasis exactly when more than one netted entry, with their count and "Assets"; otherwise the single entry's value, as an `eth` variable without token when its type is `eth` and as an `erc20` variable with its asset otherwise |
| NftTrade.NftTradeVariables | src/heuristics/erc1155Sale.ts:90-132 | exactly the keys `userOrUsers`, `tokenOrTokens`, `price`; `price` is emphasis iff more than one distinct asset was paid; an emphasis `tokenOrTokens` counts the table's received entries of the kind; with distinct keys, more than one recipient gives emphasis with the recipient count |
| NftTrade.NetByAssetCount | src/heuristics/erc1155Sale.ts:77-88 | `totalPayments` has as many entries as there are distinct paid assets |
| NftTrade.SingleEntry | src/heuristics/erc1155Sale.ts:122-131 | a single netted entry is in the first payment's asset, holds the grand total and has the last payment's type |
| NftTrade.TokenOrTokens | src/heuristics/erc1155Sale.ts:99-115 | one NFT gives its typed token variable; otherwise a single shared contract gives that contract's address; otherwise emphasis with the NFT count |
| NftTrade.UserOrUsersMeaning | src/heuristics/erc1155Sale.ts:92-98 | several distinct NFT recipients give emphasis with their count; a single one gives its address; none gives no address |
| NftTrade.PriceMeaning | src/heuristics/erc1155Sale.ts:116-131 | several distinct paid assets give emphasis with their count; a single asset gives an `eth` variable (value only) or an `erc20` variable (token and value) holding the grand total, typed by the last payment |
| Erc1155Sale.DetectErc1155Sale | src/heuristics/erc1155Sale.ts:29-47 | detection is false without a net table, and false when the initiator has no row |
| Erc1155Sale.DetectErc1155SaleRow | src/heuristics/erc1155Sale.ts:35-46 | detection holds iff the initiator's row sends an ERC-1155 entry and receives an `eth`/`erc20` entry |
| Erc1155Sale.Erc1155SaleContext | src/heuristics/erc1155Sale.ts:90-146 | the context has exactly the three variables; a single received ERC-1155 token is reported with its quantity; the summary is category `NFT`, title "NFT Purchase", with the `bought` action |
| Erc1155Sale.GenerateErc1155SaleContext | src/heuristics/erc1155Sale.ts:49-149 | the same transaction is returned; its `context` becomes the ERC-1155 variables with the `NFT` / "NFT Purchase" / `bought` summary |
| Erc1155Sale.Erc1155SaleContextualizer | src/heuristics/erc1155Sale.ts:4-11 | an undetected transaction keeps its context; a detected one gets the generated context |
| Erc1155Sale.DetectedSaleMayLackPayment | src/heuristics/erc1155Sale.ts:21-72 | a table where detection holds but no row sends a payment, so `totalPayments` is empty |
| Erc721Purchase.DetectErc721Purchase | src/heuristics/erc721Purchase.ts:29-43 | detection is false without a net table, and false when the initiator has no row |
| Erc721Purchase.DetectErc721PurchaseRow | src/heuristics/erc721Purchase.ts:31-42 | detection holds iff the initiator's row receives an ERC-721 entry and sends an `eth`/`erc20` entry |
| Erc721Purchase.DetectedPurchaseHasPayment | src/heuristics/erc721Purchase.ts:31-70 | after detection the scan collects at least one payment, so `totalPayments[0]` exists |
| Erc721Purchase.Erc721PurchaseContext | src/heuristics/erc721Purchase.ts:88-143 | the context has exactly the three variables; a single received ERC-721 token is reported without quantity; the summary is category `NFT`, title "NFT Purchase", with the `bought` action |
| Erc721Purchase.GenerateErc721PurchaseContext | src/heuristics/erc721Purchase.ts:45-146 | the same transaction is returned; its `context` becomes the ERC-721 variables (no `value` on a single token) with the `NFT` / "NFT Purchase" / `bought` summary |
| Erc721Purchase.Erc721PurchaseContextualizer | src/heuristics/erc721Purchase.ts:4-12 | an undetected transaction keeps its context; a detected one always has a payment and gets the generated context |
| TokenMint.Mints | src/heuristics/tokenMint.ts:20-24 | the detect filter keeps exactly the transfers out of the null address whose asset is not wrapped-native |
| TokenMint.NullOrigin | src/heuristics/tokenMint.ts:49-51 | the generate filter keeps exactly the transfers out of the null address |
| TokenMint.Keys | src/heuristics/tokenMint.ts:31-33 | the listed keys are exactly the table's addresses |
| TokenMint.Without | src/heuristics/tokenMint.ts:38 | removing the null address keeps every other element and preserves distinctness |
| TokenMint.Parties | src/heuristics/tokenMint.ts:31-38 | the transaction parties are exactly the non-null keys of the table, each listed once |
| TokenMint.PartiesCount | src/heuristics/tokenMint.ts:31-38 | the number of transaction parties is the number of distinct non-null keys |
| TokenMint.DetectTokenMint | src/heuristics/tokenMint.ts:11-45 | detection holds iff there are transfers and a net table, some transfer leaves the null address in a non-wrapped asset, and at most two non-null addresses are keys |
| TokenMint.DetectedMintHasNullOrigin | src/heuristics/tokenMint.ts:20-51 | after detection the generate filter is non-empty, so `mints[0]` exists |
| TokenMint.TokenVariable | src/heuristics/tokenMint.ts:62-82 | the `token` variable carries the transfer's type and token; `tokenId` exactly for ERC-721 and ERC-1155; `value` for every type but ERC-721 |
| TokenMint.TokenMintContext | src/heuristics/tokenMint.ts:49-98 | the context describes the first null-origin transfer (recipient and token as above) under category `FUNGIBLE_TOKEN`, title "Token Mint" |
| TokenMint.GenerateTokenMintContext | src/heuristics/tokenMint.ts:47-101 | the same transaction is returned; only its `context` changes, to the variables of the first null-origin transfer with the `FUNGIBLE_TOKEN` / "Token Mint" / `minted` summary |
| TokenMint.TokenMintContextualizer | src/heuristics/tokenMint.ts:4-9 | an undetected transaction keeps its context; a detected one gets the generated context |
| TokenMint.NullOriginFirst | src/heuristics/tokenMint.ts:49-56 | `mints[0]` is the first transfer, in transfer order, out of the null address |
| TokenMint.TokenMintContextMeaning | src/heuristics/tokenMint.ts:49-86 | `recipient` is the first null-origin transfer's receiver; `token` carries its type and asset, `tokenId` only for ERC-721 and ERC-1155, and `value` for every type but ERC-721 |
| TokenMint.NullOriginIsMintsWithoutWrapped | src/heuristics/tokenMint.ts:49-51 | when no null-origin transfer is wrapped-native, the generate filter equals the detect filter |
| TokenMint.WrappedMintMayBeReported | src/heuristics/tokenMint.ts:20-58 | a detected mint whose reported token is a wrapped-native asset placed before the real mint |

## Left out

- `src/commands/grabTransaction.ts` is command-line and network plumbing: an API fetch, file paths and process exit. It is not modelled.
- The test files under `src/heuristics/` and `src/protocol/farcaster/` are fixture-driven tests. The implementations they import (`erc20Swap.ts`, `tokenApproval.ts`, `idRegistry.ts`, `storageRegistry.ts`) are not part of this model.
- `helpers/constants` is not part of this model. The null address and the wrapped-native list are parameters of the token-mint members.
- `../types` is not part of this model. `Transaction`, `Asset` and the transfer records are this model's own datatypes and class, with only the fields the heuristics read.
- Values are unbounded naturals. The decimal-string parsing and printing of `ethers.BigNumber` is not modelled, and neither is an invalid value string.
- Emphasis values are a (count, noun) pair. Number-to-text formatting and the rendering of `[[name]]` template placeholders are not modelled.
- The net table is an ordered sequence of pairs. JavaScript's reordering of integer-like object keys does not arise for hex addresses and is not modelled. Distinct keys is assumed only by the lemmas that need it.
- A `null` net table is not modelled, only an absent or present one. The source's `=== undefined` test in `detectTokenMint` would let `null` reach `Object.keys`.
- Erc1155SaleContextualizer: requires that a detected sale has some row sending an `eth`/`erc20` entry. Without one, the source reads `totalPayments[0].type` of an empty array and throws. `DetectedSaleMayLackPayment` shows that detection alone does not rule this out.
- GenerateErc1155SaleContext and GenerateErc721PurchaseContext require a collected payment for the same reason. The ERC-721 contextualizer discharges this from detection.
- GenerateTokenMintContext requires a null-origin transfer. The source only calls it after detection, which guarantees one (`DetectedMintHasNullOrigin`).
- The `delete` on the copied transfer is modelled as the `MintedTransfer` record, which has `token` in place of `asset`. The original transfer list is never written: the methods modify only `context`.
- Summing payments is order-independent, but the entry order and the stored type of `totalPayments` follow payment order. The model states the sums and types per asset and does not claim that the result is independent of order.
