/** The catalog of product batches: one entry per farm and product type,
    numbered in order, each with an `owned` flag that purchases and accepted
    offers raise. */
module Catalog {
  import opened Base
  import Text

  datatype Farm = Farm(id: int, name: string)

  /** A catalog entry. `batch` is the number shown in its caption
      ("Batch #<batch>"); `price` is in hundredths of SOL. */
  datatype Entry = Entry(id: int, name: string, price: int, image: string, batch: nat, owned: bool, farmId: int)

  const Farms: seq<Farm> := [
    Farm(1, "LLP 'Asa Agro'"),
    Farm(2, "LLP 'Alel Agro' / JSC 'Alel Agro'"),
    Farm(3, "LLP 'Aulie-Ata Phoenix'"),
    Farm(4, "LLP 'Zhambyl Kus'"),
    Farm(5, "LLP 'Zhambyl Poultry Factory'")
  ]

  const Products: seq<string> := ["Drumstick", "Egg", "Wings", "Fillet", "Whole chicken", "Processing"]

  const ProductImages: map<string, string> := map[
    "Drumstick" := "/golen.png",
    "Egg" := "/eggs.png",
    "Wings" := "/wings.jpeg",
    "Fillet" := "/fillet.png",
    "Whole chicken" := "/tushka.png",
    "Processing" := "/pererabotka.webp"
  ]

  /** The separator between product and farm in an entry's name. */
  const Separator: string := " \U{2014} "

  /** `${productImageMap[p]}`: a product without an image prints as "undefined". */
  function ImageOf(product: string): string
  {
    if product in ProductImages then ProductImages[product] else "undefined"
  }

  /** The entry pushed for product number `idx` of `farm` with id `id`. */
  function NewEntry(farm: Farm, product: string, idx: nat, id: int): Entry
  {
    Entry(id, product + Separator + farm.name, 100, ImageOf(product), idx + 1, false, farm.id)
  }

  /** Position `k` of a farms-by-products table lies in row `k / n`, column
      `k % n`. */
  lemma IndexSplit(k: int, m: nat, n: nat)
    requires 0 <= k < m * n
    ensures n > 0 && 0 <= k / n < m && 0 <= k % n < n
  {
  }

  lemma MulMonotone(a: int, b: int, n: int)
    requires a <= b && n >= 0
    ensures a * n <= b * n
  {
  }

  /** Euclidean division is unique: `q * n + r` with `0 <= r < n` divides
      back into `q` and `r`. */
  lemma DivUnique(k: int, n: int, q: int, r: int)
    requires n > 0 && 0 <= r < n && k == q * n + r
    ensures k / n == q && k % n == r
  {
    var q', r' := k / n, k % n;
    assert k == q' * n + r';
    if q' < q { MulMonotone(q' + 1, q, n); }
    if q' > q { MulMonotone(q + 1, q', n); }
  }

  /** Entry `k` of the catalog built from `farms` and `products`. */
  function EntryAt(farms: seq<Farm>, products: seq<string>, k: int): Entry
    requires 0 <= k < |farms| * |products|
  {
    IndexSplit(k, |farms|, |products|);
    var f, p := k / |products|, k % |products|;
    NewEntry(farms[f], products[p], p, k + 1)
  }

  /** Row `f`, column `p` of the table is entry `f * n + p`, which lies
      inside the table. */
  lemma EntryAtCell(farms: seq<Farm>, products: seq<string>, f: nat, p: nat)
    requires f < |farms| && p < |products|
    ensures f * |products| + p < |farms| * |products|
    ensures EntryAt(farms, products, f * |products| + p) == NewEntry(farms[f], products[p], p, f * |products| + p + 1)
  {
    DivUnique(f * |products| + p, |products|, f, p);
    MulMonotone(f + 1, |farms|, |products|);
  }

  /** The catalog as a table: every farm paired with every product, farm by
      farm, ids counting from 1. */
  function CatalogOf(farms: seq<Farm>, products: seq<string>): (r: seq<Entry>)
    ensures |r| == |farms| * |products|
  {
    seq(|farms| * |products|, k requires 0 <= k < |farms| * |products| => EntryAt(farms, products, k))
  }

  /** `initialNfts` (App.tsx:285-318): two nested `forEach` loops push one
      entry per farm and product with a running id counter. */
  method BuildCatalog(farms: seq<Farm>, products: seq<string>) returns (items: seq<Entry>)
    ensures items == CatalogOf(farms, products)
  {
    var idCounter := 1;
    items := [];
    var fi := 0;
    while fi < |farms|
      invariant 0 <= fi <= |farms|
      invariant |items| == fi * |products| && idCounter == |items| + 1
      invariant |items| <= |farms| * |products|
      invariant forall k :: 0 <= k < |items| ==> items[k] == EntryAt(farms, products, k)
    {
      var pi := 0;
      while pi < |products|
        invariant 0 <= pi <= |products|
        invariant |items| == fi * |products| + pi && idCounter == |items| + 1
        invariant |items| <= |farms| * |products|
        invariant forall k :: 0 <= k < |items| ==> items[k] == EntryAt(farms, products, k)
      {
        EntryAtCell(farms, products, fi, pi);
        items := items + [NewEntry(farms[fi], products[pi], pi, idCounter)];
        idCounter := idCounter + 1;
        pi := pi + 1;
      }
      fi := fi + 1;
    }
  }

  function InitialCatalog(): seq<Entry>
  {
    CatalogOf(Farms, Products)
  }

  /** The first-launch catalog: 5 farms times 6 products, ids 1..30 in
      order, entry `i` from farm `i / 6 + 1` and product `i % 6`, unowned,
      priced 1 SOL. */
  lemma InitialCatalogShape()
    ensures |InitialCatalog()| == 30
    ensures forall i :: 0 <= i < 30 ==>
      var e := InitialCatalog()[i];
      && e.id == i + 1 && e.farmId == i / 6 + 1 && !e.owned && e.price == 100
      && e.name == Products[i % 6] + Separator + Farms[i / 6].name && e.batch == i % 6 + 1
  {
    forall i | 0 <= i < 30
      ensures InitialCatalog()[i].farmId == i / 6 + 1
    {
      assert Farms[i / 6].id == i / 6 + 1;
    }
  }

  /** The product an entry belongs to, as the analytics read it from the
      name: `name.split(" — ")[0] || name`. */
  function ProductKey(name: string): (r: string)
    ensures |r| <= |name| && r == name[..|r|]
    ensures name != [] ==> r != []
  {
    var first := Text.BeforeFirst(name, Separator);
    if first == [] then name else first
  }

  /** Every initial entry's name yields the product it was built from. */
  lemma InitialProductKey(i: int)
    requires 0 <= i < 30
    ensures |InitialCatalog()| == 30
    ensures ProductKey(InitialCatalog()[i].name) == Products[i % 6]
  {
    InitialCatalogShape();
    var p := Products[i % 6];
    assert Separator[1] !in p;
    Text.BeforeFirstOfJoin(p, Separator, Farms[i / 6].name);
  }

  /** `nfts.find(n => n.id === id)`: the first entry with that id. */
  function FindEntry(es: seq<Entry>, id: int): (r: Option<Entry>)
    ensures r == None <==> forall i :: 0 <= i < |es| ==> es[i].id != id
    ensures r.Some? ==> exists i :: 0 <= i < |es| && es[i] == r.value && r.value.id == id && (forall j :: 0 <= j < i ==> es[j].id != id)
  {
    if es == [] then None
    else if es[0].id == id then Some(es[0])
    else
      var r := FindEntry(es[1..], id);
      assert forall i :: 1 <= i < |es| ==> es[1..][i - 1] == es[i];
      r
  }

  /** `prev.map(n => n.id === id ? { ...n, owned: true } : n)`. */
  function MarkOwned(es: seq<Entry>, id: int): (r: seq<Entry>)
    ensures |r| == |es|
    ensures forall i :: 0 <= i < |es| ==> r[i] == if es[i].id == id then es[i].(owned := true) else es[i]
  {
    if es == [] then []
    else [if es[0].id == id then es[0].(owned := true) else es[0]] + MarkOwned(es[1..], id)
  }

  /** `after` differs from `before` only in `owned` flags, and only by
      raising them: nothing resets `owned` to false. */
  predicate OwnedGrows(before: seq<Entry>, after: seq<Entry>)
  {
    && |after| == |before|
    && forall i :: 0 <= i < |before| ==> after[i] == before[i].(owned := after[i].owned) && (before[i].owned ==> after[i].owned)
  }

  lemma MarkOwnedGrows(es: seq<Entry>, id: int)
    ensures OwnedGrows(es, MarkOwned(es, id))
    ensures forall i :: 0 <= i < |es| && es[i].id == id ==> MarkOwned(es, id)[i].owned
  {
  }

  /** Marking the same id twice is marking it once. */
  lemma MarkOwnedIdempotent(es: seq<Entry>, id: int)
    ensures MarkOwned(MarkOwned(es, id), id) == MarkOwned(es, id)
  {
  }

  lemma OwnedGrowsTransitive(a: seq<Entry>, b: seq<Entry>, c: seq<Entry>)
    requires OwnedGrows(a, b) && OwnedGrows(b, c)
    ensures OwnedGrows(a, c)
  {
  }
}
