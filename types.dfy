/** The data a heuristic reads and writes: a decoded transaction, its
    per-address net transfer table and the context attached to it. */
module Types {

  datatype Option<T> = None | Some(value: T)

  /** Addresses, contract identifiers and token ids are opaque strings. */
  type Address = string

  /** The `type` discriminant of a transfer or of a netted asset entry. */
  datatype AssetType = Eth | Erc20 | Erc721 | Erc1155

  /** Kinds that count as a payment: native currency or a fungible token. */
  const PaymentKinds: set<AssetType> := {Eth, Erc20}

  /** One entry of an address's `sent` or `received` list: `{type, asset,
      value, tokenId?}`; `value` is a base-unit amount of any size. */
  datatype Asset = Asset(kind: AssetType, asset: Address, value: nat, tokenId: Option<string>)

  datatype NetRow = NetRow(sent: seq<Asset>, received: seq<Asset>)

  /** `netAssetTransfers`: one row per address, in the object's key order. */
  type NetTransfers = seq<(Address, NetRow)>

  /** Keys of a JavaScript object are distinct. */
  predicate DistinctKeys(net: NetTransfers) {
    forall i, j :: 0 <= i < j < |net| ==> net[i].0 != net[j].0
  }

  /** The addresses that are keys of the table. */
  function KeySet(net: NetTransfers): set<Address> {
    set i | 0 <= i < |net| :: net[i].0
  }

  /** A low-level transfer record of `assetTransfers`. */
  datatype AssetTransfer = AssetTransfer(
    from: Address, to: Address, asset: Address, kind: AssetType, value: nat, tokenId: Option<string>)

  /** A context variable, one alternative per `type` discriminant the
      heuristics produce. `Emphasis(n, noun)` is the text "<n> <noun>". A
      token variable carries only the fields the source sets on it. */
  datatype Variable =
    | AddressVar(address: Option<Address>)
    | Emphasis(count: nat, noun: string)
    | TokenVar(kind: AssetType, token: Option<Address>, tokenId: Option<string>, amount: Option<nat>)
    | ContextAction(action: string)

  /** `summaries.<category>.en`: a title, a `[[name]]` template and the
      variables local to it. */
  datatype Summary = Summary(title: string, template: string, variables: map<string, Variable>)

  datatype Summaries = Summaries(category: string, en: Summary)

  datatype Context = Context(variables: map<string, Variable>, summaries: Summaries)

  /** A decoded transaction. Heuristics read every field and write only
      `context`. */
  class Transaction {
    var hash: string
    var from: Address
    var to: Address
    var assetTransfers: Option<seq<AssetTransfer>>
    var netAssetTransfers: Option<NetTransfers>
    var context: Option<Context>

    constructor (hash: string, from: Address, to: Address,
                 assetTransfers: Option<seq<AssetTransfer>>, netAssetTransfers: Option<NetTransfers>)
      ensures this.hash == hash && this.from == from && this.to == to
      ensures this.assetTransfers == assetTransfers && this.netAssetTransfers == netAssetTransfers
      ensures context == None
    {
      this.hash := hash;
      this.from := from;
      this.to := to;
      this.assetTransfers := assetTransfers;
      this.netAssetTransfers := netAssetTransfers;
      this.context := None;
    }
  }

  /** `netAssetTransfers[address]`: the row of that address, if any. */
  function Lookup(net: NetTransfers, address: Address): (r: Option<NetRow>)
    ensures r.Some? <==> address in KeySet(net)
    ensures r.Some? ==> exists i :: 0 <= i < |net| && net[i] == (address, r.value)
    ensures DistinctKeys(net) ==>
      forall i :: 0 <= i < |net| && net[i].0 == address ==> r == Some(net[i].1)
    decreases |net|
  {
    if net == [] then None
    else if net[0].0 == address then Some(net[0].1)
    else
      var rest := Lookup(net[1..], address);
      assert KeySet(net) == KeySet(net[1..]) + {net[0].0} by {
        forall a ensures a in KeySet(net) <==> a in KeySet(net[1..]) + {net[0].0} {
          if a in KeySet(net) && a != net[0].0 {
            var i :| 0 <= i < |net| && net[i].0 == a;
            assert net[1..][i - 1] == net[i];
          }
        }
      }
      rest
  }

  /** `s.filter((t) => kinds includes t.type)`. */
  function Select(s: seq<Asset>, kinds: set<AssetType>): (r: seq<Asset>)
    ensures forall x :: x in r <==> x in s && x.kind in kinds
    ensures |r| > 0 <==> exists x :: x in s && x.kind in kinds
    decreases |s|
  {
    if s == [] then []
    else
      assert forall x :: x in s <==> x == s[0] || x in s[1..];
      (if s[0].kind in kinds then [s[0]] else []) + Select(s[1..], kinds)
  }

  /** The filter keeps every entry of a listed type as often as it occurs,
      and no other entry. */
  lemma {:induction false} SelectCount(s: seq<Asset>, kinds: set<AssetType>)
    ensures forall x :: multiset(Select(s, kinds))[x] == if x.kind in kinds then multiset(s)[x] else 0
    decreases |s|
  {
    if s != [] {
      SelectCount(s[1..], kinds);
      assert s == [s[0]] + s[1..];
    }
  }

  /** Filtering a concatenation keeps the entries of both parts. */
  lemma SelectMultisetAppend(a: seq<Asset>, b: seq<Asset>, kinds: set<AssetType>)
    ensures multiset(Select(a + b, kinds)) == multiset(Select(a, kinds)) + multiset(Select(b, kinds))
  {
    SelectCount(a + b, kinds);
    SelectCount(a, kinds);
    SelectCount(b, kinds);
    forall x ensures multiset(Select(a + b, kinds))[x] == multiset(Select(a, kinds))[x] + multiset(Select(b, kinds))[x] {
      assert multiset(a + b)[x] == multiset(a)[x] + multiset(b)[x];
    }
  }
}
