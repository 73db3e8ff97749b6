/**
 * The dashboard: the two totals, the balance and its surplus/deficit
 * label, and the "latest three" lists of facturas and aportes.
 *
 * The source sorts the arrays it is given in place before slicing them,
 * so `Render` takes arrays and sorts them; `View` is the function of the
 * inputs that `Render` is proved to compute.
 */
module Dashboard {
  import opened Records
  import opened Totals
  import opened Sorting

  datatype BalanceStatus = Superavit | Deficit

  /** How many records the "latest" lists show (`slice(0, 3)`). */
  const RecentCount: nat := 3

  datatype DashboardView = DashboardView(
    totalAportes: real,
    totalFacturas: real,
    balance: real,
    status: BalanceStatus,
    ultimasFacturas: seq<Factura>,
    ultimosAportes: seq<Aporte>)

  /** `totalAportes - totalFacturas`. */
  function Balance(aportes: seq<Aporte>, facturas: seq<Factura>): (b: real)
    ensures b >= 0.0 <==> TotalAportes(aportes) >= TotalFacturas(facturas)
    ensures b + TotalFacturas(facturas) == TotalAportes(aportes)
  {
    TotalAportes(aportes) - TotalFacturas(facturas)
  }

  /** The label of the balance card: zero counts as a surplus. */
  function Status(balance: real): (st: BalanceStatus)
    ensures st == Superavit <==> balance >= 0.0
    ensures st == Deficit <==> balance < 0.0
  {
    if balance >= 0.0 then Superavit else Deficit
  }

  /**
   * The sort key of the comparator `(a, b) => time(b.fecha) - time(a.fecha)`,
   * where `time` stands for `new Date(fecha).getTime()`.
   */
  function FacturaTime(time: string -> int): (key: Factura -> int)
    ensures forall f :: key(f) == time(f.fecha)
  {
    (f: Factura) => time(f.fecha)
  }

  /** The same sort key for aportes. */
  function AporteTime(time: string -> int): (key: Aporte -> int)
    ensures forall a :: key(a) == time(a.fecha)
  {
    (a: Aporte) => time(a.fecha)
  }

  /**
   * Sorting by the key is sorting by the comparator
   * `time(b.fecha) - time(a.fecha)`: in the result no later record makes the
   * comparator positive against an earlier one, and the records the
   * comparator ties (equal key `k`) keep their input order.
   */
  lemma KeysFollowComparator(time: string -> int, ps: seq<Aporte>, fs: seq<Factura>, k: int)
    ensures var r := SortDesc(ps, AporteTime(time));
      (forall i, j :: 0 <= i < j < |r| ==> time(r[j].fecha) - time(r[i].fecha) <= 0)
      && WithKey(r, AporteTime(time), k) == WithKey(ps, AporteTime(time), k)
    ensures var r := SortDesc(fs, FacturaTime(time));
      (forall i, j :: 0 <= i < j < |r| ==> time(r[j].fecha) - time(r[i].fecha) <= 0)
      && WithKey(r, FacturaTime(time), k) == WithKey(fs, FacturaTime(time), k)
  {
    SortDescSorted(ps, AporteTime(time));
    SortDescStable(ps, AporteTime(time), k);
    SortDescSorted(fs, FacturaTime(time));
    SortDescStable(fs, FacturaTime(time), k);
  }

  /** `s.sort(mostRecentFirst).slice(0, n)`. */
  function Recent<T>(s: seq<T>, key: T -> int, n: nat): (r: seq<T>)
    ensures r <= SortDesc(s, key)
    ensures |r| == if |s| <= n then |s| else n
  {
    var sorted := SortDesc(s, key);
    if |sorted| <= n then sorted else sorted[..n]
  }

  /** Everything the dashboard shows, as a function of its inputs. */
  function View(facturas: seq<Factura>, aportes: seq<Aporte>, time: string -> int): (v: DashboardView)
    ensures v.totalAportes == SumRight(aportes, AporteValor)
    ensures v.totalFacturas == SumRight(facturas, FacturaValor)
    ensures v.balance == v.totalAportes - v.totalFacturas
    ensures v.status == Superavit <==> v.totalAportes >= v.totalFacturas
    ensures |v.ultimasFacturas| == if |facturas| <= RecentCount then |facturas| else RecentCount
    ensures |v.ultimosAportes| == if |aportes| <= RecentCount then |aportes| else RecentCount
    ensures SortedDesc(v.ultimasFacturas, FacturaTime(time)) && multiset(v.ultimasFacturas) <= multiset(facturas)
    ensures SortedDesc(v.ultimosAportes, AporteTime(time)) && multiset(v.ultimosAportes) <= multiset(aportes)
  {
    SumIsSumRight(aportes, AporteValor);
    SumIsSumRight(facturas, FacturaValor);
    RecentOrdered(facturas, FacturaTime(time), RecentCount);
    RecentOrdered(aportes, AporteTime(time), RecentCount);
    var balance := Balance(aportes, facturas);
    DashboardView(
      TotalAportes(aportes), TotalFacturas(facturas), balance, Status(balance),
      Recent(facturas, FacturaTime(time), RecentCount),
      Recent(aportes, AporteTime(time), RecentCount))
  }

  /**
   * The component as written: the totals are folded first, then both
   * arrays are sorted in place and the first three of each are taken.
   */
  method Render(facturas: array<Factura>, aportes: array<Aporte>, time: string -> int) returns (v: DashboardView)
    modifies facturas, aportes
    ensures v == View(old(facturas[..]), old(aportes[..]), time)
    ensures facturas[..] == SortDesc(old(facturas[..]), FacturaTime(time))
    ensures aportes[..] == SortDesc(old(aportes[..]), AporteTime(time))
  {
    ghost var fs0, as0 := facturas[..], aportes[..];
    var totalFacturas := TotalFacturas(facturas[..]);
    var totalAportes := TotalAportes(aportes[..]);
    var balance := totalAportes - totalFacturas;
    assert balance == Balance(as0, fs0);
    SortInPlace(facturas, FacturaTime(time));
    SortInPlace(aportes, AporteTime(time));
    var ultimasFacturas := if facturas.Length <= RecentCount then facturas[..] else facturas[..RecentCount];
    var ultimosAportes := if aportes.Length <= RecentCount then aportes[..] else aportes[..RecentCount];
    assert ultimasFacturas == Recent(fs0, FacturaTime(time), RecentCount);
    assert ultimosAportes == Recent(as0, AporteTime(time), RecentCount);
    v := DashboardView(totalAportes, totalFacturas, balance, Status(balance), ultimasFacturas, ultimosAportes);
  }

  /**
   * The dashboard rendered from copies of its inputs: the arrays it sorts
   * are fresh, so the caller's lists keep their order.
   */
  method RenderCopy(facturas: seq<Factura>, aportes: seq<Aporte>, time: string -> int) returns (v: DashboardView)
    ensures v == View(facturas, aportes, time)
  {
    var fs := new Factura[|facturas|](i requires 0 <= i < |facturas| => facturas[i]);
    var as_ := new Aporte[|aportes|](i requires 0 <= i < |aportes| => aportes[i]);
    assert fs[..] == facturas && as_[..] == aportes;
    v := Render(fs, as_, time);
  }

  /** The label is "Superávit" exactly when contributions cover the expenses. */
  lemma StatusIff(aportes: seq<Aporte>, facturas: seq<Factura>)
    ensures Status(Balance(aportes, facturas)) == Superavit <==> TotalAportes(aportes) >= TotalFacturas(facturas)
    ensures Status(Balance(aportes, facturas)) == Deficit <==> TotalAportes(aportes) < TotalFacturas(facturas)
  {
  }

  /** The totals of a single record are its own valor. */
  lemma TotalsOfOne(a: Aporte, f: Factura)
    ensures TotalAportes([a]) == a.valor && TotalFacturas([f]) == f.valor
  {
    TotalAportesAppend([], a);
    TotalFacturasAppend([], f);
    assert [] + [a] == [a] && [] + [f] == [f];
  }

  /** 100 in, 40 out is a surplus of 60; 40 in, 100 out a deficit of 60. */
  lemma BalanceExamples(a: Aporte, f: Factura)
    requires a.valor == 100.0 && f.valor == 40.0
    ensures Balance([a], [f]) == 60.0 && Status(Balance([a], [f])) == Superavit
    ensures Balance([a.(valor := 40.0)], [f.(valor := 100.0)]) == -60.0
    ensures Status(Balance([a.(valor := 40.0)], [f.(valor := 100.0)])) == Deficit
  {
    TotalsOfOne(a, f);
    TotalsOfOne(a.(valor := 40.0), f.(valor := 100.0));
  }

  /** At most `n` records are shown, all of them when there are at most `n`. */
  lemma {:induction false} RecentSize<T>(s: seq<T>, key: T -> int, n: nat)
    ensures |Recent(s, key, n)| <= n
    ensures |Recent(s, key, n)| == if |s| <= n then |s| else n
    ensures |s| <= n ==> multiset(Recent(s, key, n)) == multiset(s)
    ensures |Recent(s, key, n)| == 0 <==> |s| == 0 || n == 0
  {
    SortDescPermutation(s, key);
  }

  /** The view is a prefix of the sorted input, newest first, and only holds input records. */
  lemma {:induction false} RecentOrdered<T>(s: seq<T>, key: T -> int, n: nat)
    ensures Recent(s, key, n) <= SortDesc(s, key)
    ensures SortedDesc(Recent(s, key, n), key)
    ensures multiset(Recent(s, key, n)) <= multiset(s)
  {
    var sorted := SortDesc(s, key);
    SortDescSorted(s, key);
    SortDescPermutation(s, key);
    var r := Recent(s, key, n);
    assert sorted == r + sorted[|r|..];
    assert multiset(sorted) == multiset(r) + multiset(sorted[|r|..]);
  }

  /** No record left out of the view is more recent than a record shown. */
  lemma {:induction false} RecentAreLatest<T>(s: seq<T>, key: T -> int, n: nat, y: T)
    requires y in s && y !in Recent(s, key, n)
    ensures forall x :: x in Recent(s, key, n) ==> key(x) >= key(y)
  {
    var sorted := SortDesc(s, key);
    var r := Recent(s, key, n);
    SortDescSorted(s, key);
    SortDescPermutation(s, key);
    assert y in multiset(sorted);
    var j :| 0 <= j < |sorted| && sorted[j] == y;
    assert j >= |r|;
    forall x | x in r
      ensures key(x) >= key(y)
    {
      var i :| 0 <= i < |r| && r[i] == x;
      assert sorted[i] == x;
    }
  }

  /** Records with the same date appear in the view in their input order. */
  lemma {:induction false} RecentStable<T>(s: seq<T>, key: T -> int, n: nat, k: int)
    ensures WithKey(Recent(s, key, n), key, k) <= WithKey(s, key, k)
  {
    var sorted := SortDesc(s, key);
    var r := Recent(s, key, n);
    assert sorted == r + sorted[|r|..];
    WithKeyConcat(r, sorted[|r|..], key, k);
    SortDescStable(s, key, k);
  }

  /**
   * Dates carry only the day, and the sort is stable, so among aportes of
   * the same day the latest list shows the first three added, not the
   * three added last.
   */
  lemma SameDayShowsFirstAdded(a1: Aporte, a2: Aporte, a3: Aporte, a4: Aporte, time: string -> int)
    requires a1.fecha == a2.fecha == a3.fecha == a4.fecha
    ensures Recent([a1, a2, a3, a4], AporteTime(time), RecentCount) == [a1, a2, a3]
  {
    SortDescOfSorted([a1, a2, a3, a4], AporteTime(time));
  }

  /**
   * Sorting in place does not change what the dashboard shows: rendering
   * again from the already sorted arrays gives the same totals, balance
   * and latest lists.
   */
  lemma {:induction false} ViewAfterSort(facturas: seq<Factura>, aportes: seq<Aporte>, time: string -> int)
    ensures View(SortDesc(facturas, FacturaTime(time)), SortDesc(aportes, AporteTime(time)), time)
         == View(facturas, aportes, time)
  {
    var fs := SortDesc(facturas, FacturaTime(time));
    var as_ := SortDesc(aportes, AporteTime(time));
    SortDescPermutation(facturas, FacturaTime(time));
    SortDescPermutation(aportes, AporteTime(time));
    SumPermutation(fs, facturas, FacturaValor);
    SumPermutation(as_, aportes, AporteValor);
    SortDescSorted(facturas, FacturaTime(time));
    SortDescSorted(aportes, AporteTime(time));
    SortDescOfSorted(fs, FacturaTime(time));
    SortDescOfSorted(as_, AporteTime(time));
  }
}
