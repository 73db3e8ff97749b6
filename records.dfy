/**
 * The two record shapes of the ledger and the store-level operation on
 * them that does not belong to a single component: removal by id.
 *
 * `valor` is a real number (the app's JavaScript `number`, without its
 * floating-point rounding); `fecha` is the `YYYY-MM-DD` text the forms
 * stamp; ids are opaque strings.
 */
module Records {

  datatype Option<T> = None | Some(value: T)

  /** An expense ("factura"). `descripcion` is absent or a string. */
  datatype Factura = Factura(id: string, concepto: string, valor: real, fecha: string, descripcion: Option<string>)

  /** A contribution ("aporte") by one of the family members ("hermano"). */
  datatype Aporte = Aporte(id: string, hermano: string, valor: real, concepto: string, fecha: string)

  /** What the factura form emits: a factura without its id. */
  datatype NewFactura = NewFactura(concepto: string, valor: real, fecha: string, descripcion: Option<string>)

  /** What the aporte form emits: an aporte without its id. */
  datatype NewAporte = NewAporte(hermano: string, valor: real, concepto: string, fecha: string)

  /** `{ ...aporte, id }`: the submitted fields plus the id the caller chose. */
  function WithId(a: NewAporte, id: string): (r: Aporte)
    ensures r.id == id
    ensures r.hermano == a.hermano && r.valor == a.valor && r.concepto == a.concepto && r.fecha == a.fecha
  {
    Aporte(id, a.hermano, a.valor, a.concepto, a.fecha)
  }

  /** `list.filter(a => a.id !== id)`. */
  function WithoutId(s: seq<Aporte>, id: string): (r: seq<Aporte>)
    ensures |r| <= |s|
    ensures forall i :: 0 <= i < |r| ==> r[i].id != id
  {
    if s == [] then [] else
      var rest := WithoutId(s[..|s| - 1], id);
      if s[|s| - 1].id != id then rest + [s[|s| - 1]] else rest
  }

  /** Filtering distributes over concatenation: the kept records stay in their order. */
  lemma {:induction false} WithoutIdConcat(s: seq<Aporte>, t: seq<Aporte>, id: string)
    ensures WithoutId(s + t, id) == WithoutId(s, id) + WithoutId(t, id)
  {
    if t == [] {
      assert s + t == s;
    } else {
      assert (s + t)[..|s + t| - 1] == s + t[..|t| - 1];
      WithoutIdConcat(s, t[..|t| - 1], id);
    }
  }

  /** Exactly the records whose id differs are kept, and none with the id is left. */
  lemma {:induction false} WithoutIdMembers(s: seq<Aporte>, id: string)
    ensures forall a :: a in WithoutId(s, id) <==> a in s && a.id != id
    ensures |WithoutId(s, id)| <= |s|
  {
    if s != [] {
      WithoutIdMembers(s[..|s| - 1], id);
      assert s == s[..|s| - 1] + [s[|s| - 1]];
    }
  }

  /** Deleting an id that no record carries leaves the list as it was. */
  lemma {:induction false} WithoutAbsentId(s: seq<Aporte>, id: string)
    requires forall i :: 0 <= i < |s| ==> s[i].id != id
    ensures WithoutId(s, id) == s
  {
    if s != [] {
      WithoutAbsentId(s[..|s| - 1], id);
      assert s == s[..|s| - 1] + [s[|s| - 1]];
    }
  }

  /** Deleting a present id shortens the list: the deletion is not a no-op. */
  lemma {:induction false} WithoutPresentId(s: seq<Aporte>, i: nat)
    requires i < |s|
    ensures |WithoutId(s, s[i].id)| < |s|
  {
    var id := s[i].id;
    assert s == s[..i] + [s[i]] + s[i + 1..];
    WithoutIdConcat(s[..i] + [s[i]], s[i + 1..], id);
    WithoutIdConcat(s[..i], [s[i]], id);
    WithoutIdMembers(s[..i], id);
    WithoutIdMembers(s[i + 1..], id);
    assert [s[i]][..0] == [];
    assert WithoutId([s[i]], id) == [];
  }
}
