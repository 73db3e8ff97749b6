/**
 * The contributions list: the overall total, the per-hermano totals built
 * by a dictionary-accumulating loop, and the history rows.
 */
module AporteList {
  import opened Records
  import opened Totals

  /** The distinct hermano names, in order of first appearance. */
  function Contributors(s: seq<Aporte>): (cs: seq<string>)
    ensures |cs| <= |s|
    ensures s != [] ==> s[|s| - 1].hermano in cs
    ensures forall h :: h in cs ==> h in HermanoSet(s)
  {
    if s == [] then []
    else
      var cs := Contributors(s[..|s| - 1]);
      if s[|s| - 1].hermano in cs then cs else cs + [s[|s| - 1].hermano]
  }

  /** The set of hermano names that occur in `s`. */
  function HermanoSet(s: seq<Aporte>): set<string>
  {
    set i | 0 <= i < |s| :: s[i].hermano
  }

  /** The sum of `valor` over the aportes of hermano `h`. */
  function HermanoTotal(s: seq<Aporte>, h: string): (r: real)
    ensures (forall i :: 0 <= i < |s| ==> s[i].valor >= 0.0) ==> 0.0 <= r <= TotalAportes(s)
  {
    if s == [] then 0.0
    else HermanoTotal(s[..|s| - 1], h) + (if s[|s| - 1].hermano == h then s[|s| - 1].valor else 0.0)
  }

  /** What the grouping must produce: one entry per hermano, holding that hermano's total. */
  function GroupSpec(s: seq<Aporte>): (m: map<string, real>)
    ensures m == map[] <==> s == []
    ensures (forall i :: 0 <= i < |s| ==> s[i].valor >= 0.0) ==>
      forall h :: h in m ==> 0.0 <= m[h] <= TotalAportes(s)
  {
    var m := map h | h in HermanoSet(s) :: HermanoTotal(s, h);
    assert s != [] ==> s[0].hermano in m;
    m
  }

  /** Taking one more aporte adds its valor to its own hermano's total and to no other. */
  lemma HermanoTotalStep(s: seq<Aporte>, i: nat, g: string)
    requires i < |s|
    ensures HermanoTotal(s[..i + 1], g) == HermanoTotal(s[..i], g) + (if s[i].hermano == g then s[i].valor else 0.0)
  {
    assert s[..i + 1][..i] == s[..i];
  }

  /** Taking one more aporte adds its hermano to the names. */
  lemma HermanoSetStep(s: seq<Aporte>, i: nat)
    requires i < |s|
    ensures HermanoSet(s[..i + 1]) == HermanoSet(s[..i]) + {s[i].hermano}
  {
    assert forall j :: 0 <= j < i ==> s[..i + 1][j] == s[..i][j];
  }

  /**
   * `aportes.reduce((acc, a) => { if (!acc[a.hermano]) acc[a.hermano] = 0;
   * acc[a.hermano] += a.valor; return acc }, {})`. The falsy test also
   * fires on an entry that holds 0, which it resets to 0. The entries,
   * listed in first-appearance order, add up to the overall total.
   */
  method GroupByHermano(aportes: seq<Aporte>) returns (acc: map<string, real>)
    ensures acc == GroupSpec(aportes)
    ensures forall h :: h in Contributors(aportes) <==> h in acc
    ensures SumEntries(acc, Contributors(aportes)) == TotalAportes(aportes)
  {
    acc := map[];
    for i := 0 to |aportes|
      invariant acc.Keys == HermanoSet(aportes[..i])
      invariant forall h :: h in acc ==> acc[h] == HermanoTotal(aportes[..i], h)
    {
      var h := aportes[i].hermano;
      if h !in acc || acc[h] == 0.0 {
        acc := acc[h := 0.0];
      }
      acc := acc[h := acc[h] + aportes[i].valor];
      forall g | g in acc
        ensures acc[g] == HermanoTotal(aportes[..i + 1], g)
      {
        HermanoTotalStep(aportes, i, g);
        if g == h && h !in HermanoSet(aportes[..i]) {
          HermanoTotalAbsent(aportes[..i], h);
        }
      }
      HermanoSetStep(aportes, i);
    }
    assert aportes[..|aportes|] == aportes;
    assert acc == GroupSpec(aportes);
    ContributorsAreKeys(aportes);
    GroupsSumToTotal(aportes);
    SumEntriesOfGroup(aportes, Contributors(aportes));
  }

  /** The sum of the entries of `m` under the names `hs`. */
  function SumEntries(m: map<string, real>, hs: seq<string>): real
    requires forall h :: h in hs ==> h in m
  {
    if hs == [] then 0.0 else SumEntries(m, hs[..|hs| - 1]) + m[hs[|hs| - 1]]
  }

  /** The sum over the names `hs` of each name's total. */
  function SumOver(s: seq<Aporte>, hs: seq<string>): real
  {
    if hs == [] then 0.0 else SumOver(s, hs[..|hs| - 1]) + HermanoTotal(s, hs[|hs| - 1])
  }

  /** Summing the entries of the grouping under some hermanos is summing their totals. */
  lemma {:induction false} SumEntriesOfGroup(s: seq<Aporte>, hs: seq<string>)
    requires forall h :: h in hs ==> h in HermanoSet(s)
    ensures forall h :: h in hs ==> h in GroupSpec(s)
    ensures SumEntries(GroupSpec(s), hs) == SumOver(s, hs)
  {
    if hs != [] {
      SumEntriesOfGroup(s, hs[..|hs| - 1]);
    }
  }

  ghost predicate Distinct(hs: seq<string>)
  {
    forall i, j :: 0 <= i < j < |hs| ==> hs[i] != hs[j]
  }

  /** A name that never occurs has total 0. */
  lemma {:induction false} HermanoTotalAbsent(s: seq<Aporte>, h: string)
    requires h !in HermanoSet(s)
    ensures HermanoTotal(s, h) == 0.0
  {
    if s != [] {
      var s' := s[..|s| - 1];
      assert HermanoSet(s') <= HermanoSet(s) by {
        forall j | 0 <= j < |s'| ensures s'[j].hermano in HermanoSet(s) {
          assert s'[j] == s[j];
        }
      }
      assert s[|s| - 1].hermano in HermanoSet(s);
      HermanoTotalAbsent(s', h);
    }
  }

  /** The first-appearance order lists every hermano exactly once. */
  lemma {:induction false} ContributorsAreKeys(s: seq<Aporte>)
    ensures Distinct(Contributors(s))
    ensures forall h :: h in Contributors(s) <==> h in HermanoSet(s)
  {
    if s != [] {
      var s' := s[..|s| - 1];
      ContributorsAreKeys(s');
      assert HermanoSet(s) == HermanoSet(s') + {s[|s| - 1].hermano} by {
        forall j | 0 <= j < |s'| ensures s'[j] == s[j] { }
      }
    }
  }

  /** Adding one aporte raises the sum over distinct names by its valor if its name is among them. */
  lemma {:induction false} SumOverStep(s: seq<Aporte>, a: Aporte, hs: seq<string>)
    requires Distinct(hs)
    ensures SumOver(s + [a], hs) == SumOver(s, hs) + (if a.hermano in hs then a.valor else 0.0)
  {
    assert (s + [a])[..|s|] == s;
    if hs != [] {
      var hs' := hs[..|hs| - 1];
      SumOverStep(s, a, hs');
      assert hs == hs' + [hs[|hs| - 1]];
      assert a.hermano in hs <==> a.hermano in hs' || a.hermano == hs[|hs| - 1];
      assert hs[|hs| - 1] !in hs';
    }
  }

  /** The per-hermano totals, each counted once, add up to the overall total. */
  lemma {:induction false} GroupsSumToTotal(s: seq<Aporte>)
    ensures SumOver(s, Contributors(s)) == TotalAportes(s)
  {
    if s != [] {
      var s', a := s[..|s| - 1], s[|s| - 1];
      assert s == s' + [a];
      GroupsSumToTotal(s');
      ContributorsAreKeys(s');
      var cs := Contributors(s');
      SumOverStep(s', a, cs);
      TotalAportesAppend(s', a);
      if a.hermano !in cs {
        HermanoTotalAbsent(s', a.hermano);
      }
    }
  }

  /**
   * What the grouping yields, read through its entries: the keys are
   * exactly the hermanos of the input (exact, case-sensitive match), each
   * maps to that hermano's total, and the entries add up to the total.
   */
  lemma GroupByHermanoMeaning(s: seq<Aporte>)
    ensures GroupSpec(s).Keys == HermanoSet(s)
    ensures forall h :: h in Contributors(s) <==> h in GroupSpec(s)
    ensures SumOver(s, Contributors(s)) == TotalAportes(s)
    ensures |GroupSpec(s)| == 0 <==> s == []
  {
    ContributorsAreKeys(s);
    GroupsSumToTotal(s);
    if s != [] {
      assert s[0].hermano in GroupSpec(s);
    }
  }

  /** A row of the history table; its delete button passes `deleteId`. */
  datatype AporteRow = AporteRow(hermano: string, concepto: string, valor: real, fecha: string, deleteId: string)

  /** What the history card shows: the empty-state message, or one row per aporte. */
  datatype History = NoAportesMessage | Rows(rows: seq<AporteRow>)

  function Row(a: Aporte): (row: AporteRow)
    ensures row.hermano == a.hermano && row.concepto == a.concepto && row.valor == a.valor && row.fecha == a.fecha
    ensures row.deleteId == a.id
  {
    AporteRow(a.hermano, a.concepto, a.valor, a.fecha, a.id)
  }

  /** `aportes.length === 0 ? message : aportes.map(row)`. */
  function HistoryOf(s: seq<Aporte>): (hist: History)
    ensures hist.NoAportesMessage? <==> |s| == 0
    ensures hist.Rows? ==> |hist.rows| == |s|
  {
    if |s| == 0 then NoAportesMessage else Rows(seq(|s|, i requires 0 <= i < |s| => Row(s[i])))
  }

  /** The message shows exactly when there is no aporte; otherwise the rows follow the input order. */
  lemma HistoryInOrder(s: seq<Aporte>)
    ensures HistoryOf(s).NoAportesMessage? <==> |s| == 0
    ensures HistoryOf(s).Rows? ==> |HistoryOf(s).rows| == |s|
    ensures HistoryOf(s).Rows? ==> forall i :: 0 <= i < |s| ==>
      var row := HistoryOf(s).rows[i];
      row.hermano == s[i].hermano && row.concepto == s[i].concepto && row.valor == s[i].valor
      && row.fecha == s[i].fecha && row.deleteId == s[i].id
  {
  }

  /**
   * Pressing the delete button of row `i` and filtering by the id it
   * passes removes the aporte that row shows, and keeps every aporte with
   * another id, in order.
   */
  lemma DeleteFromRow(s: seq<Aporte>, i: nat)
    requires i < |s|
    ensures HistoryOf(s).Rows?
    ensures var id := HistoryOf(s).rows[i].deleteId;
      s[i] !in WithoutId(s, id) && |WithoutId(s, id)| < |s|
      && forall a :: a in s && a.id != id ==> a in WithoutId(s, id)
  {
    WithoutIdMembers(s, s[i].id);
    WithoutPresentId(s, i);
  }
}
