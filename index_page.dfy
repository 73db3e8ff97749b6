/**
 * The page that owns the session state: the active tab, the list of
 * aportes (kept only in memory for the session) and the factura refresh
 * flag; it appends and filters the list and picks what to render.
 *
 * `Date.now()` is the parameter `now`, and the date-to-time conversion the
 * dashboard sorts by is the parameter `time`.
 */
module IndexPage {
  import opened Records
  import opened Totals
  import opened Text
  import opened Sorting
  import opened Dashboard
  import AporteList

  datatype Screen =
    | DashboardScreen(view: DashboardView)
    | FacturasScreen(refresh: bool)
    | AportesScreen(aportes: seq<Aporte>)

  /** `renderContent`: any tab other than the two named ones shows the dashboard, which always gets no facturas. */
  function Content(tab: string, aportes: seq<Aporte>, refresh: bool, time: string -> int): (screen: Screen)
    ensures screen.FacturasScreen? <==> tab == "facturas"
    ensures screen.AportesScreen? <==> tab == "aportes"
    ensures screen.AportesScreen? ==> screen.aportes == aportes
    ensures screen.FacturasScreen? ==> screen.refresh == refresh
    ensures screen.DashboardScreen? ==> screen.view.totalFacturas == 0.0 && screen.view.totalAportes == TotalAportes(aportes)
  {
    if tab == "facturas" then FacturasScreen(refresh)
    else if tab == "aportes" then AportesScreen(aportes)
    else DashboardScreen(View([], aportes, time))
  }

  /**
   * On the dashboard (the "home" tab and every unknown tab) no factura is
   * counted, so the balance is the total of the aportes and is a surplus
   * exactly when that total is not negative.
   */
  lemma DashboardTabBalance(tab: string, aportes: seq<Aporte>, refresh: bool, time: string -> int)
    requires tab != "facturas" && tab != "aportes"
    ensures Content(tab, aportes, refresh, time).DashboardScreen?
    ensures var v := Content(tab, aportes, refresh, time).view;
      v.totalFacturas == 0.0 && v.balance == TotalAportes(aportes) && v.ultimasFacturas == []
      && (v.status == Superavit <==> TotalAportes(aportes) >= 0.0)
  {
  }

  /** Adding a record under an id no record has and then deleting that id gives back the list. */
  lemma {:induction false} AddThenDelete(s: seq<Aporte>, a: NewAporte, id: string)
    requires forall i :: 0 <= i < |s| ==> s[i].id != id
    ensures WithoutId(s + [WithId(a, id)], id) == s
  {
    WithoutIdConcat(s, [WithId(a, id)], id);
    WithoutAbsentId(s, id);
    assert [WithId(a, id)][..0] == [];
  }

  /** Records added at different milliseconds get different ids. */
  lemma IdsFromDistinctTimes(a: NewAporte, b: NewAporte, m: nat, n: nat)
    requires m != n
    ensures WithId(a, NatToString(m)).id != WithId(b, NatToString(n)).id
  {
    if NatToString(m) == NatToString(n) {
      NatToStringInjective(m, n);
    }
  }

  /**
   * The dashboard sorts the arrays it is given in place, and the page gives
   * it its own state list. Two aportes stamped on different days, added
   * oldest first, are listed newest first by the history once the dashboard
   * has been shown.
   */
  lemma {:induction false} DashboardReordersHistory(a1: Aporte, a2: Aporte, time: string -> int)
    requires time(a1.fecha) < time(a2.fecha)
    ensures SortDesc([a1, a2], AporteTime(time)) == [a2, a1]
    ensures AporteList.HistoryOf([a1, a2]).rows[0].deleteId == a1.id
    ensures AporteList.HistoryOf(SortDesc([a1, a2], AporteTime(time))).rows[0].deleteId == a2.id
  {
    var key := AporteTime(time);
    assert [a1, a2][..1] == [a1];
    assert [a1][..0] == [];
    assert SortDesc([a1], key) == [a1];
    assert Insert(a2, [a1], key) == [a2, a1];
  }

  class Index {
    var activeTab: string
    var aportes: seq<Aporte>
    var refreshFacturas: bool

    constructor ()
      ensures activeTab == "home" && aportes == [] && !refreshFacturas
    {
      activeTab, aportes, refreshFacturas := "home", [], false;
    }

    /** `addAporte`: the submitted fields plus `id: Date.now().toString()`, appended at the end. */
    method AddAporte(a: NewAporte, now: nat)
      modifies this`aportes
      ensures aportes == old(aportes) + [WithId(a, NatToString(now))]
      ensures |aportes| == |old(aportes)| + 1 && aportes[..|old(aportes)|] == old(aportes)
    {
      aportes := aportes + [WithId(a, NatToString(now))];
    }

    /** `deleteAporte`: every record with the id goes; an absent id changes nothing. */
    method DeleteAporte(id: string)
      modifies this`aportes
      ensures aportes == WithoutId(old(aportes), id)
      ensures forall x :: x in aportes <==> x in old(aportes) && x.id != id
      ensures (forall i :: 0 <= i < |old(aportes)| ==> old(aportes)[i].id != id) ==> aportes == old(aportes)
    {
      WithoutIdMembers(aportes, id);
      if forall i :: 0 <= i < |aportes| ==> aportes[i].id != id {
        WithoutAbsentId(aportes, id);
      }
      aportes := WithoutId(aportes, id);
    }

    /** `handleFacturaAdded`: flips the flag, so two calls restore it. */
    method HandleFacturaAdded()
      modifies this`refreshFacturas
      ensures refreshFacturas == !old(refreshFacturas)
    {
      refreshFacturas := !refreshFacturas;
    }

    /** `onTabChange` from the navigation bar. */
    method SetActiveTab(tab: string)
      modifies this`activeTab
      ensures activeTab == tab
    {
      activeTab := tab;
    }

    /**
     * `renderContent` as written: on the dashboard tab the page's own
     * list is handed to `Dashboard.Render`, which sorts it in place.
     */
    method RenderContentAsWritten(time: string -> int) returns (screen: Screen)
      modifies this`aportes
      ensures screen == Content(activeTab, old(aportes), refreshFacturas, time)
      ensures aportes == if activeTab == "facturas" || activeTab == "aportes" then old(aportes)
                         else SortDesc(old(aportes), AporteTime(time))
    {
      if activeTab == "facturas" {
        screen := FacturasScreen(refreshFacturas);
      } else if activeTab == "aportes" {
        screen := AportesScreen(aportes);
      } else {
        var current := aportes;
        var state := new Aporte[|current|](i requires 0 <= i < |current| => current[i]);
        var none := new Factura[0];
        assert state[..] == current;
        assert none[..] == [];
        var view := Dashboard.Render(none, state, time);
        aportes := state[..];
        screen := DashboardScreen(view);
      }
    }

    /** `renderContent` with the dashboard working on a copy: the list keeps its order. */
    method RenderContent(time: string -> int) returns (screen: Screen)
      ensures screen == Content(activeTab, aportes, refreshFacturas, time)
    {
      if activeTab == "facturas" {
        screen := FacturasScreen(refreshFacturas);
      } else if activeTab == "aportes" {
        screen := AportesScreen(aportes);
      } else {
        var view := RenderCopy([], aportes, time);
        screen := DashboardScreen(view);
      }
    }
  }
}
