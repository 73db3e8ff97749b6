/**
 * The contribution form: three text fields, a submit handler that either
 * rejects the input (fields untouched, no callback) or emits one new
 * aporte and clears the fields.
 *
 * The callback `onAddAporte` is modelled by `Submit`'s result: `Some(a)`
 * is the one call with `a`, `None` is no call. The clock is the parameter
 * `nowIso` (the value of `new Date().toISOString()`), and `parseFloat` is
 * a parameter because its parsing rules are not part of this model.
 */
module AporteForm {
  import opened Records
  import opened Text

  /** The names the hermano selector offers, in its order. */
  const Hermanos: seq<string> := ["Juan Carlos", "María Elena", "Pedro José", "Ana Lucía", "Luis Fernando"]

  /** The selector offers five distinct names. */
  lemma HermanosFixed()
    ensures |Hermanos| == 5
    ensures forall i, j :: 0 <= i < j < |Hermanos| ==> Hermanos[i] != Hermanos[j]
    ensures forall h :: h in Hermanos ==> h != ""
  {
  }

  class AporteFormState {
    var hermano: string
    var valor: string
    var concepto: string

    /** The selector can only set a listed name; it starts out empty and is cleared after a submit. */
    ghost predicate Valid()
      reads this
    {
      hermano == "" || hermano in Hermanos
    }

    constructor ()
      ensures Valid()
      ensures hermano == "" && valor == "" && concepto == ""
    {
      hermano, valor, concepto := "", "", "";
    }

    /** `onValueChange` of the selector: only its items can be chosen. */
    method SelectHermano(h: string)
      requires h in Hermanos
      modifies this`hermano
      ensures Valid() && hermano == h
    {
      hermano := h;
    }

    /** `onChange` of the number input: any text. */
    method SetValor(v: string)
      requires Valid()
      modifies this`valor
      ensures Valid() && valor == v
    {
      valor := v;
    }

    /** `onChange` of the concept input: any text. */
    method SetConcepto(c: string)
      requires Valid()
      modifies this`concepto
      ensures Valid() && concepto == c
    {
      concepto := c;
    }

    /** `handleSubmit`. */
    method Submit(nowIso: string, parseFloat: string -> real) returns (sent: Option<NewAporte>)
      requires Valid()
      modifies this
      ensures Valid()
      ensures sent.None? <==> old(hermano) == "" || old(valor) == "" || old(concepto) == ""
      ensures sent.None? ==> hermano == old(hermano) && valor == old(valor) && concepto == old(concepto)
      ensures sent.Some? ==> sent.value == NewAporte(old(hermano), parseFloat(old(valor)), old(concepto), BeforeFirst(nowIso, 'T'))
      ensures sent.Some? ==> hermano == "" && valor == "" && concepto == ""
      ensures sent.Some? ==> sent.value.hermano in Hermanos
      ensures sent.Some? && IsIsoTimestamp(nowIso) ==> IsIsoDate(sent.value.fecha) && sent.value.fecha == nowIso[..10]
    {
      if hermano == "" || valor == "" || concepto == "" {
        return None;
      }
      var aporte := NewAporte(hermano, parseFloat(valor), concepto, BeforeFirst(nowIso, 'T'));
      hermano, valor, concepto := "", "", "";
      if IsIsoTimestamp(nowIso) {
        DatePartOfTimestamp(nowIso);
      }
      return Some(aporte);
    }
  }
}
