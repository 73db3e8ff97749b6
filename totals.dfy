/**
 * The `reduce((sum, r) => sum + r.valor, 0)` folds used by the dashboard
 * and by both list views.
 */
module Totals {
  import opened Records

  /** A left fold adding `amount` of every element, starting from 0. */
  function Sum<T>(s: seq<T>, amount: T -> real): (r: real)
    ensures (forall i :: 0 <= i < |s| ==> amount(s[i]) >= 0.0) ==>
      r >= 0.0 && forall i :: 0 <= i < |s| ==> amount(s[i]) <= r
  {
    if s == [] then 0.0 else Sum(s[..|s| - 1], amount) + amount(s[|s| - 1])
  }

  /** The same sum as a right fold: an independent reference for `Sum`. */
  function SumRight<T>(s: seq<T>, amount: T -> real): real
  {
    if s == [] then 0.0 else amount(s[0]) + SumRight(s[1..], amount)
  }

  function FacturaValor(f: Factura): real { f.valor }

  function AporteValor(a: Aporte): real { a.valor }

  /** `totalFacturas`, and the `total` of the factura list. */
  function TotalFacturas(fs: seq<Factura>): (r: real)
    ensures (forall i :: 0 <= i < |fs| ==> fs[i].valor >= 0.0) ==>
      r >= 0.0 && forall i :: 0 <= i < |fs| ==> fs[i].valor <= r
  {
    Sum(fs, FacturaValor)
  }

  /** `totalAportes`, and the `total` of the aporte list. */
  function TotalAportes(as_: seq<Aporte>): (r: real)
    ensures (forall i :: 0 <= i < |as_| ==> as_[i].valor >= 0.0) ==>
      r >= 0.0 && forall i :: 0 <= i < |as_| ==> as_[i].valor <= r
  {
    Sum(as_, AporteValor)
  }

  /** The sum of a concatenation is the sum of the parts. */
  lemma {:induction false} SumConcat<T>(s: seq<T>, t: seq<T>, amount: T -> real)
    ensures Sum(s + t, amount) == Sum(s, amount) + Sum(t, amount)
  {
    if t == [] {
      assert s + t == s;
    } else {
      assert (s + t)[..|s + t| - 1] == s + t[..|t| - 1];
      SumConcat(s, t[..|t| - 1], amount);
    }
  }

  /** The left fold and the right fold agree on every sequence. */
  lemma {:induction false} SumIsSumRight<T>(s: seq<T>, amount: T -> real)
    ensures Sum(s, amount) == SumRight(s, amount)
  {
    if s != [] {
      SumIsSumRight(s[1..], amount);
      assert s == [s[0]] + s[1..];
      SumConcat([s[0]], s[1..], amount);
      assert [s[0]][..0] == [];
    }
  }

  /** Reordering does not change a sum. */
  lemma {:induction false} SumPermutation<T>(s: seq<T>, t: seq<T>, amount: T -> real)
    requires multiset(s) == multiset(t)
    ensures Sum(s, amount) == Sum(t, amount)
    decreases |s|
  {
    if s != [] {
      var x := s[|s| - 1];
      assert x in multiset(t);
      var i :| 0 <= i < |t| && t[i] == x;
      var t' := t[..i] + t[i + 1..];
      assert t == t[..i] + [x] + t[i + 1..];
      assert s == s[..|s| - 1] + [x];
      assert multiset(t) == multiset(t[..i]) + multiset{x} + multiset(t[i + 1..]);
      assert multiset(s) == multiset(s[..|s| - 1]) + multiset{x};
      assert multiset(t') == multiset(t[..i]) + multiset(t[i + 1..]);
      assert multiset(t') == multiset(t) - multiset{x};
      assert multiset(s[..|s| - 1]) == multiset(s) - multiset{x};
      SumPermutation(s[..|s| - 1], t', amount);
      SumConcat(t[..i] + [x], t[i + 1..], amount);
      SumConcat(t[..i], [x], amount);
      SumConcat(t[..i], t[i + 1..], amount);
      assert [x][..0] == [];
    } else {
      assert |t| == |multiset(t)| == 0;
    }
  }

  /** No factura, no expenses: `totalFacturas` of `[]` is 0. */
  lemma TotalFacturasEmpty()
    ensures TotalFacturas([]) == 0.0
  {
  }

  /** Adding a factura raises the total by exactly its valor. */
  lemma TotalFacturasAppend(fs: seq<Factura>, f: Factura)
    ensures TotalFacturas(fs + [f]) == TotalFacturas(fs) + f.valor
  {
    assert (fs + [f])[..|fs|] == fs;
  }

  /** Adding an aporte raises the total by exactly its valor. */
  lemma TotalAportesAppend(as_: seq<Aporte>, a: Aporte)
    ensures TotalAportes(as_ + [a]) == TotalAportes(as_) + a.valor
  {
    assert (as_ + [a])[..|as_|] == as_;
  }

  /** The totals of the worked example: 10 + 5.5 is 15.5. */
  lemma TotalFacturasExample(f1: Factura, f2: Factura)
    requires f1.valor == 10.0 && f2.valor == 5.5
    ensures TotalFacturas([f1, f2]) == 15.5
  {
    assert [f1, f2][..1] == [f1];
    assert [f1][..0] == [];
    assert Sum([f1], FacturaValor) == 10.0;
  }
}
