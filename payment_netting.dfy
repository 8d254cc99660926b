/** Netting of payments per asset identifier: the `reduce` that folds the
    collected payments into a dictionary keyed by asset, adding values with
    arbitrary-precision arithmetic, followed by `Object.values`. */
module PaymentNetting {
  import opened Types
  import opened Sequences

  /** The `{ type, asset, value }` record pushed for every payment. */
  datatype Payment = Payment(kind: AssetType, asset: Address, value: nat)

  /** The asset identifier of every payment, in order. */
  function AssetsOf(ps: seq<Payment>): (r: seq<Address>)
    ensures |r| == |ps| && forall k :: 0 <= k < |ps| ==> r[k] == ps[k].asset
  {
    seq(|ps|, k requires 0 <= k < |ps| => ps[k].asset)
  }

  /** One step of the reduce: the entry for `p.asset` becomes
      `{ type: p.type, asset: p.asset, value: old value + p.value }`; an
      asset seen for the first time is appended, as a new key of a
      JavaScript object is. */
  function Upsert(totals: seq<Payment>, p: Payment): (r: seq<Payment>)
    ensures |r| == |totals| || |r| == |totals| + 1
    ensures |r| > 0
    decreases |totals|
  {
    if totals == [] then [Payment(p.kind, p.asset, p.value)]
    else if totals[0].asset == p.asset then [Payment(p.kind, p.asset, totals[0].value + p.value)] + totals[1..]
    else [totals[0]] + Upsert(totals[1..], p)
  }

  /** `totalPayments`: the payments folded left to right by `Upsert`. */
  function NetByAsset(ps: seq<Payment>): (r: seq<Payment>)
    ensures |r| > 0 <==> |ps| > 0
    decreases |ps|
  {
    if ps == [] then [] else Upsert(NetByAsset(ps[..|ps| - 1]), ps[|ps| - 1])
  }

  /** Reference definitions: the sum of the values paid in `asset`, the type
      of the last payment in `asset`, and the grand total. */
  function SumFor(ps: seq<Payment>, asset: Address): nat
    decreases |ps|
  {
    if ps == [] then 0
    else SumFor(ps[..|ps| - 1], asset) + (if ps[|ps| - 1].asset == asset then ps[|ps| - 1].value else 0)
  }

  function LastKind(ps: seq<Payment>, asset: Address): Option<AssetType>
    decreases |ps|
  {
    if ps == [] then None
    else if ps[|ps| - 1].asset == asset then Some(ps[|ps| - 1].kind)
    else LastKind(ps[..|ps| - 1], asset)
  }

  function Total(ps: seq<Payment>): nat
    decreases |ps|
  {
    if ps == [] then 0 else ps[0].value + Total(ps[1..])
  }

  /** A reduce step adds `p.asset` to the keys and no other key; the entry
      list grows exactly when the asset is new. */
  lemma {:induction false} UpsertAssets(totals: seq<Payment>, p: Payment)
    ensures forall a :: a in AssetsOf(Upsert(totals, p)) <==> a in AssetsOf(totals) || a == p.asset
    ensures |Upsert(totals, p)| == |totals| + 1 <==> p.asset !in AssetsOf(totals)
    decreases |totals|
  {
    if totals == [] {
      assert AssetsOf(Upsert(totals, p)) == [p.asset];
    } else {
      var r := Upsert(totals, p);
      UpsertAssets(totals[1..], p);
      AssetsOfCons(totals);
      AssetsOfCons(r);
      assert r[1..] == if totals[0].asset == p.asset then totals[1..] else Upsert(totals[1..], p);
    }
  }

  lemma AssetsOfCons(ps: seq<Payment>)
    requires ps != []
    ensures AssetsOf(ps) == [ps[0].asset] + AssetsOf(ps[1..])
  {
  }

  /** Upserting an asset already present updates its (first) entry in place. */
  lemma {:induction false} UpsertExisting(totals: seq<Payment>, p: Payment, j: nat)
    requires j < |totals| && totals[j].asset == p.asset
    requires forall i :: 0 <= i < j ==> totals[i].asset != p.asset
    ensures Upsert(totals, p) == totals[j := Payment(p.kind, p.asset, totals[j].value + p.value)]
    decreases j
  {
    if j > 0 {
      UpsertExisting(totals[1..], p, j - 1);
    }
  }

  /** Upserting a new asset appends it. */
  lemma {:induction false} UpsertNew(totals: seq<Payment>, p: Payment)
    requires forall i :: 0 <= i < |totals| ==> totals[i].asset != p.asset
    ensures Upsert(totals, p) == totals + [Payment(p.kind, p.asset, p.value)]
    decreases |totals|
  {
    if totals != [] {
      UpsertNew(totals[1..], p);
    }
  }

  /** `totals` is what netting `ps` should give: one entry per distinct
      paid asset, in order of first payment, each holding the sum of all
      payments in that asset and the type of the last one. */
  ghost predicate Characterizes(ps: seq<Payment>, totals: seq<Payment>) {
    && AssetsOf(totals) == Dedup(AssetsOf(ps))
    && forall k :: 0 <= k < |totals| ==>
         totals[k].value == SumFor(ps, totals[k].asset) && LastKind(ps, totals[k].asset) == Some(totals[k].kind)
  }

  /** A payment in an asset already netted adds to that asset's entry. */
  lemma CharacterizesStepExisting(ps: seq<Payment>, totals: seq<Payment>, j: nat)
    requires |ps| > 0 && Characterizes(ps[..|ps| - 1], totals)
    requires j < |totals| && totals[j].asset == ps[|ps| - 1].asset
    ensures var p := ps[|ps| - 1];
      Characterizes(ps, totals[j := Payment(p.kind, p.asset, totals[j].value + p.value)])
  {
    var n := |ps| - 1;
    var init, p := ps[..n], ps[n];
    var e' := Payment(p.kind, p.asset, totals[j].value + p.value);
    var t' := totals[j := e'];
    assert AssetsOf(ps)[..n] == AssetsOf(init);
    assert p.asset in Dedup(AssetsOf(init)) by { assert AssetsOf(totals)[j] == p.asset; }
    assert AssetsOf(t') == AssetsOf(totals);
    forall k | 0 <= k < |t'|
      ensures t'[k].value == SumFor(ps, t'[k].asset) && LastKind(ps, t'[k].asset) == Some(t'[k].kind)
    {
      if k != j {
        assert AssetsOf(totals)[k] != AssetsOf(totals)[j];
      }
    }
  }

  /** A payment in a new asset appends an entry holding just that payment. */
  lemma CharacterizesStepNew(ps: seq<Payment>, totals: seq<Payment>)
    requires |ps| > 0 && Characterizes(ps[..|ps| - 1], totals)
    requires forall k :: 0 <= k < |totals| ==> totals[k].asset != ps[|ps| - 1].asset
    ensures var p := ps[|ps| - 1];
      Characterizes(ps, totals + [Payment(p.kind, p.asset, p.value)])
  {
    var n := |ps| - 1;
    var init, p := ps[..n], ps[n];
    var t' := totals + [Payment(p.kind, p.asset, p.value)];
    assert AssetsOf(ps)[..n] == AssetsOf(init);
    assert p.asset !in AssetsOf(totals);
    assert AssetsOf(t') == AssetsOf(totals) + [p.asset];
    SumForAbsent(init, p.asset);
  }

  /** `totalPayments` holds one entry per distinct paid asset, in order of
      first payment; each entry's value is the sum of all payments in that
      asset and its type is that of the last such payment. */
  lemma {:induction false} NetByAssetEntries(ps: seq<Payment>)
    ensures Characterizes(ps, NetByAsset(ps))
    decreases |ps|
  {
    if ps != [] {
      var n := |ps| - 1;
      var init, p := ps[..n], ps[n];
      NetByAssetEntries(init);
      var t := NetByAsset(init);
      assert Distinct(AssetsOf(t));
      if j :| 0 <= j < |t| && t[j].asset == p.asset {
        assert forall i :: 0 <= i < j ==> AssetsOf(t)[i] != AssetsOf(t)[j];
        UpsertExisting(t, p, j);
        CharacterizesStepExisting(ps, t, j);
      } else {
        UpsertNew(t, p);
        CharacterizesStepNew(ps, t);
      }
    }
  }

  /** No asset has two entries in `totalPayments`. */
  lemma NetByAssetDistinct(ps: seq<Payment>)
    ensures Distinct(AssetsOf(NetByAsset(ps)))
  {
    NetByAssetEntries(ps);
  }

  /** Nothing is paid in an asset that no payment mentions. */
  lemma {:induction false} SumForAbsent(ps: seq<Payment>, asset: Address)
    requires asset !in AssetsOf(ps)
    ensures SumFor(ps, asset) == 0
    decreases |ps|
  {
    if ps != [] {
      var n := |ps| - 1;
      assert AssetsOf(ps)[..n] == AssetsOf(ps[..n]);
      SumForAbsent(ps[..n], asset);
    }
  }

  lemma {:induction false} TotalAppend(a: seq<Payment>, b: seq<Payment>)
    ensures Total(a + b) == Total(a) + Total(b)
    decreases |a|
  {
    if a != [] {
      assert (a + b)[0] == a[0] && (a + b)[1..] == a[1..] + b;
      TotalAppend(a[1..], b);
      calc {
        Total(a + b);
        a[0].value + Total(a[1..] + b);
        a[0].value + Total(a[1..]) + Total(b);
      }
    } else {
      assert a + b == b;
    }
  }

  lemma {:induction false} UpsertTotal(totals: seq<Payment>, p: Payment)
    ensures Total(Upsert(totals, p)) == Total(totals) + p.value
    decreases |totals|
  {
    if totals != [] && totals[0].asset != p.asset {
      UpsertTotal(totals[1..], p);
    }
  }

  /** Netting conserves the grand total of the payments. */
  lemma {:induction false} NetByAssetConserves(ps: seq<Payment>)
    ensures Total(NetByAsset(ps)) == Total(ps)
    decreases |ps|
  {
    if ps != [] {
      var n := |ps| - 1;
      NetByAssetConserves(ps[..n]);
      UpsertTotal(NetByAsset(ps[..n]), ps[n]);
      assert ps == ps[..n] + [ps[n]];
      TotalAppend(ps[..n], [ps[n]]);
    }
  }

  /** The accumulator object: `keys` is its key insertion order, `acc` its
      contents, and together they stand for the entries `totals`. */
  ghost predicate Represents(keys: seq<Address>, acc: map<Address, Payment>, totals: seq<Payment>) {
    && |keys| == |totals|
    && (forall j :: 0 <= j < |totals| ==> keys[j] == totals[j].asset && keys[j] in acc && acc[keys[j]] == totals[j])
    && (forall k :: k in acc ==> k in keys)
  }

  /** An iteration on a key already in the accumulator rewrites its value. */
  lemma RepresentsStepExisting(keys: seq<Address>, acc: map<Address, Payment>, totals: seq<Payment>, next: Payment)
    requires Represents(keys, acc, totals) && Distinct(AssetsOf(totals))
    requires next.asset in acc
    ensures Represents(keys, acc[next.asset := Payment(next.kind, next.asset, acc[next.asset].value + next.value)],
                       Upsert(totals, next))
  {
    var j :| 0 <= j < |keys| && keys[j] == next.asset;
    var e' := Payment(next.kind, next.asset, totals[j].value + next.value);
    assert forall i :: 0 <= i < |totals| && i != j ==> AssetsOf(totals)[i] != AssetsOf(totals)[j];
    UpsertExisting(totals, next, j);
    var acc' := acc[next.asset := e'];
    var t' := totals[j := e'];
    forall k | 0 <= k < |t'|
      ensures keys[k] == t'[k].asset && keys[k] in acc' && acc'[keys[k]] == t'[k]
    {
      if k != j {
        assert keys[k] != next.asset;
      }
    }
  }

  /** An iteration on a fresh key appends it to the key order. */
  lemma RepresentsStepNew(keys: seq<Address>, acc: map<Address, Payment>, totals: seq<Payment>, next: Payment)
    requires Represents(keys, acc, totals)
    requires next.asset !in acc
    ensures Represents(keys + [next.asset], acc[next.asset := Payment(next.kind, next.asset, next.value)],
                       Upsert(totals, next))
  {
    assert forall i :: 0 <= i < |totals| ==> totals[i].asset != next.asset;
    UpsertNew(totals, next);
  }

  /** `Object.values` lists the accumulator's entries in key order. */
  lemma ValuesInKeyOrder(keys: seq<Address>, acc: map<Address, Payment>, totals: seq<Payment>, values: seq<Payment>)
    requires Represents(keys, acc, totals)
    requires |values| == |keys| && forall j :: 0 <= j < |keys| ==> keys[j] in acc && values[j] == acc[keys[j]]
    ensures values == totals
  {
  }

  /** One more payment of the prefix is one more `Upsert` into entries whose
      assets are distinct. */
  lemma NetByAssetPrefix(ps: seq<Payment>, i: nat)
    requires i < |ps|
    ensures NetByAsset(ps[..i + 1]) == Upsert(NetByAsset(ps[..i]), ps[i])
    ensures Distinct(AssetsOf(NetByAsset(ps[..i])))
  {
    assert ps[..i + 1][..i] == ps[..i];
    NetByAssetDistinct(ps[..i]);
  }

  /** The reduce over `sentPayments` with an object accumulator, then
      `Object.values`. */
  method NetPayments(sentPayments: seq<Payment>) returns (totalPayments: seq<Payment>)
    ensures totalPayments == NetByAsset(sentPayments)
  {
    var keys: seq<Address> := [];
    var acc: map<Address, Payment> := map[];
    for i := 0 to |sentPayments|
      invariant Represents(keys, acc, NetByAsset(sentPayments[..i]))
    {
      var next := sentPayments[i];
      ghost var totals := NetByAsset(sentPayments[..i]);
      NetByAssetPrefix(sentPayments, i);
      var prior := if next.asset in acc then acc[next.asset].value else 0;
      if next.asset in acc {
        RepresentsStepExisting(keys, acc, totals, next);
      } else {
        RepresentsStepNew(keys, acc, totals, next);
        keys := keys + [next.asset];
      }
      acc := acc[next.asset := Payment(next.kind, next.asset, prior + next.value)];
    }
    assert sentPayments[..|sentPayments|] == sentPayments;
    totalPayments := seq(|keys|, j requires 0 <= j < |keys| && keys[j] in acc => acc[keys[j]]);
    ValuesInKeyOrder(keys, acc, NetByAsset(sentPayments), totalPayments);
  }
}
