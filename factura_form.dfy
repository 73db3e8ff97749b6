/**
 * The expense form: concept and amount are required, the description is
 * optional and an empty one is sent as absent. As with the contribution
 * form, `Submit`'s result stands for the `onAddFactura` call.
 */
module FacturaForm {
  import opened Records
  import opened Text
  import FacturaList

  /** `descripcion || undefined`. */
  function Normalise(descripcion: string): (d: Option<string>)
    ensures d.None? <==> descripcion == ""
    ensures d.Some? ==> d.value == descripcion
  {
    if descripcion == "" then None else Some(descripcion)
  }

  /**
   * The form's normalisation and the list's display agree: an empty and an
   * absent description are both shown as nothing, and a non-empty one is
   * shown as typed.
   */
  lemma NormaliseThenShow(descripcion: string)
    ensures FacturaList.ShownDescripcion(Normalise(descripcion)) == Normalise(descripcion)
    ensures FacturaList.ShownDescripcion(Normalise(descripcion)).Some? <==> descripcion != ""
  {
  }

  class FacturaFormState {
    var concepto: string
    var valor: string
    var descripcion: string

    constructor ()
      ensures concepto == "" && valor == "" && descripcion == ""
    {
      concepto, valor, descripcion := "", "", "";
    }

    method SetConcepto(c: string)
      modifies this`concepto
      ensures concepto == c
    {
      concepto := c;
    }

    method SetValor(v: string)
      modifies this`valor
      ensures valor == v
    {
      valor := v;
    }

    method SetDescripcion(d: string)
      modifies this`descripcion
      ensures descripcion == d
    {
      descripcion := d;
    }

    /** `handleSubmit`: the description is not required. */
    method Submit(nowIso: string, parseFloat: string -> real) returns (sent: Option<NewFactura>)
      modifies this
      ensures sent.None? <==> old(concepto) == "" || old(valor) == ""
      ensures sent.None? ==> concepto == old(concepto) && valor == old(valor) && descripcion == old(descripcion)
      ensures sent.Some? ==> sent.value == NewFactura(old(concepto), parseFloat(old(valor)), BeforeFirst(nowIso, 'T'), Normalise(old(descripcion)))
      ensures sent.Some? ==> concepto == "" && valor == "" && descripcion == ""
      ensures sent.Some? && IsIsoTimestamp(nowIso) ==> IsIsoDate(sent.value.fecha) && sent.value.fecha == nowIso[..10]
    {
      if concepto == "" || valor == "" {
        return None;
      }
      var factura := NewFactura(concepto, parseFloat(valor), BeforeFirst(nowIso, 'T'), Normalise(descripcion));
      concepto, valor, descripcion := "", "", "";
      if IsIsoTimestamp(nowIso) {
        DatePartOfTimestamp(nowIso);
      }
      return Some(factura);
    }
  }
}
