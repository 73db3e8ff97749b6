/**
 * The expenses list: the total in the header, the empty-state message,
 * and one row per factura, in input order.
 */
module FacturaList {
  import opened Records
  import opened Totals

  /** A row; `descripcion` is what the optional paragraph shows, and the delete button passes `deleteId`. */
  datatype FacturaRow = FacturaRow(concepto: string, valor: real, fecha: string, descripcion: Option<string>, deleteId: string)

  datatype Body = NoFacturasMessage | Rows(rows: seq<FacturaRow>)

  datatype FacturaListView = FacturaListView(total: real, body: Body)

  /** `{factura.descripcion && <p>…</p>}`: both `undefined` and `""` are falsy. */
  function ShownDescripcion(d: Option<string>): (r: Option<string>)
    ensures r.Some? <==> d.Some? && d.value != ""
    ensures r.Some? ==> r == d
  {
    match d
    case Some(text) => if text != "" then Some(text) else None
    case None => None
  }

  function Row(f: Factura): (row: FacturaRow)
    ensures row.concepto == f.concepto && row.valor == f.valor && row.fecha == f.fecha
    ensures row.descripcion.Some? <==> f.descripcion.Some? && f.descripcion.value != ""
    ensures row.deleteId == f.id
  {
    FacturaRow(f.concepto, f.valor, f.fecha, ShownDescripcion(f.descripcion), f.id)
  }

  function ViewOf(fs: seq<Factura>): (v: FacturaListView)
    ensures v.body.NoFacturasMessage? <==> |fs| == 0
    ensures v.body.Rows? ==> |v.body.rows| == |fs|
  {
    FacturaListView(
      TotalFacturas(fs),
      if |fs| == 0 then NoFacturasMessage else Rows(seq(|fs|, i requires 0 <= i < |fs| => Row(fs[i]))))
  }

  /** The message shows exactly for an empty list, and the total is then 0. */
  lemma EmptyList(fs: seq<Factura>)
    ensures ViewOf(fs).body.NoFacturasMessage? <==> |fs| == 0
    ensures |fs| == 0 ==> ViewOf(fs).total == 0.0
  {
  }

  /** Rows follow the input order; each delete button passes its own factura's id. */
  lemma RowsInOrder(fs: seq<Factura>, i: nat)
    requires i < |fs|
    ensures ViewOf(fs).body.Rows? && |ViewOf(fs).body.rows| == |fs|
    ensures ViewOf(fs).body.rows[i].deleteId == fs[i].id
    ensures ViewOf(fs).body.rows[i].concepto == fs[i].concepto && ViewOf(fs).body.rows[i].valor == fs[i].valor
    ensures ViewOf(fs).body.rows[i].fecha == fs[i].fecha
    ensures ViewOf(fs).body.rows[i].descripcion == ShownDescripcion(fs[i].descripcion)
  {
  }

  /** Listing one more factura raises the header total by exactly its valor. */
  lemma AppendRaisesTotal(fs: seq<Factura>, f: Factura)
    ensures ViewOf(fs + [f]).total == ViewOf(fs).total + f.valor
    ensures ViewOf(fs + [f]).body.Rows?
  {
    TotalFacturasAppend(fs, f);
  }
}
