/**
 * The parts of SQL's semantics that the pipeline's queries rely on:
 * three-valued logic for conditions over nullable columns, and the
 * aggregates SUM and AVG, which skip NULL inputs.
 */
module Sql {
  import opened Wrappers
  import opened Tables

  /** A condition over nullable columns is True, False or Unknown (NULL). */
  datatype Truth = True | False | Unknown

  function OfBool(b: bool): Truth {
    if b then True else False
  }

  function Not(a: Truth): Truth {
    match a
    case True => False
    case False => True
    case Unknown => Unknown
  }

  function And(a: Truth, b: Truth): Truth {
    if a == False || b == False then False
    else if a == True && b == True then True
    else Unknown
  }

  function Or(a: Truth, b: Truth): Truth {
    if a == True || b == True then True
    else if a == False && b == False then False
    else Unknown
  }

  /** `x > c` for a nullable column x. */
  function Gt(x: Option<real>, c: real): Truth {
    match x
    case None => Unknown
    case Some(v) => OfBool(v > c)
  }

  /** `x < c` for a nullable column x. */
  function Lt(x: Option<real>, c: real): Truth {
    match x
    case None => Unknown
    case Some(v) => OfBool(v < c)
  }

  /** `x = c` for a nullable column x. */
  function Eq(x: Option<real>, c: real): Truth {
    match x
    case None => Unknown
    case Some(v) => OfBool(v == c)
  }

  function Sum(xs: seq<real>): real {
    if xs == [] then 0.0 else Sum(xs[..|xs| - 1]) + xs[|xs| - 1]
  }

  /** The non-NULL values of a column, in row order. */
  function Defined(vs: seq<Option<real>>): (ds: seq<real>)
    ensures |ds| <= |vs|
    ensures forall i :: 0 <= i < |vs| && vs[i].Some? ==> vs[i].value in ds
    ensures forall v :: v in ds ==> exists i :: 0 <= i < |vs| && vs[i] == Some(v)
  {
    if vs == [] then []
    else
      var init := vs[..|vs| - 1];
      var ds' := Defined(init);
      assert forall i :: 0 <= i < |init| ==> init[i] == vs[i];
      match vs[|vs| - 1]
      case Some(v) => ds' + [v]
      case None => ds'
  }

  /** SUM(column): NULL when every input is NULL (in particular on no rows). */
  function SqlSum(vs: seq<Option<real>>): Option<real> {
    var ds := Defined(vs);
    if ds == [] then None else Some(Sum(ds))
  }

  /** AVG(column): the mean of the non-NULL inputs, NULL when there are none. */
  function SqlAvg(vs: seq<Option<real>>): Option<real> {
    var ds := Defined(vs);
    if ds == [] then None else Some(Sum(ds) / (|ds| as real))
  }

  /** AVG is NULL exactly when no input is defined. */
  lemma AvgNullIffAllNull(vs: seq<Option<real>>)
    ensures SqlAvg(vs) == None <==> forall i :: 0 <= i < |vs| ==> vs[i] == None
  {
    if SqlAvg(vs) == None {
      forall i | 0 <= i < |vs|
        ensures vs[i] == None
      {
      }
    } else {
      var v := Defined(vs)[0];
      assert v in Defined(vs);
    }
  }

  lemma {:induction false} SumAtMost(xs: seq<real>, hi: real)
    requires forall i :: 0 <= i < |xs| ==> xs[i] <= hi
    ensures Sum(xs) <= (|xs| as real) * hi
  {
    if xs != [] {
      SumAtMost(xs[..|xs| - 1], hi);
    }
  }

  lemma {:induction false} SumAtLeast(xs: seq<real>, lo: real)
    requires forall i :: 0 <= i < |xs| ==> lo <= xs[i]
    ensures (|xs| as real) * lo <= Sum(xs)
  {
    if xs != [] {
      SumAtLeast(xs[..|xs| - 1], lo);
    }
  }

  lemma QuotientAtMost(total: real, n: real, hi: real)
    requires n > 0.0 && total <= n * hi
    ensures total / n <= hi
  {
    var d := n * hi - total;
    assert total / n == hi - d / n;
    assert d / n >= 0.0;
  }

  lemma QuotientAtLeast(total: real, n: real, lo: real)
    requires n > 0.0 && n * lo <= total
    ensures lo <= total / n
  {
    var d := total - n * lo;
    assert total / n == lo + d / n;
    assert d / n >= 0.0;
  }

  lemma MeanAtMost(ds: seq<real>, hi: real)
    requires ds != [] && forall j :: 0 <= j < |ds| ==> ds[j] <= hi
    ensures Sum(ds) / (|ds| as real) <= hi
  {
    SumAtMost(ds, hi);
    QuotientAtMost(Sum(ds), |ds| as real, hi);
  }

  lemma MeanAtLeast(ds: seq<real>, lo: real)
    requires ds != [] && forall j :: 0 <= j < |ds| ==> lo <= ds[j]
    ensures lo <= Sum(ds) / (|ds| as real)
  {
    SumAtLeast(ds, lo);
    QuotientAtLeast(Sum(ds), |ds| as real, lo);
  }

  lemma DefinedAtMost(vs: seq<Option<real>>, hi: real)
    requires forall i :: 0 <= i < |vs| && vs[i].Some? ==> vs[i].value <= hi
    ensures forall j :: 0 <= j < |Defined(vs)| ==> Defined(vs)[j] <= hi
  {
    var ds := Defined(vs);
    forall j | 0 <= j < |ds|
      ensures ds[j] <= hi
    {
      assert ds[j] in ds;
    }
  }

  lemma DefinedAtLeast(vs: seq<Option<real>>, lo: real)
    requires forall i :: 0 <= i < |vs| && vs[i].Some? ==> lo <= vs[i].value
    ensures forall j :: 0 <= j < |Defined(vs)| ==> lo <= Defined(vs)[j]
  {
    var ds := Defined(vs);
    forall j | 0 <= j < |ds|
      ensures lo <= ds[j]
    {
      assert ds[j] in ds;
    }
  }

  /** An average of values that are all at most hi is at most hi. */
  lemma AvgAtMost(vs: seq<Option<real>>, hi: real)
    requires forall i :: 0 <= i < |vs| && vs[i].Some? ==> vs[i].value <= hi
    ensures SqlAvg(vs).Some? ==> SqlAvg(vs).value <= hi
  {
    var ds := Defined(vs);
    if ds != [] {
      DefinedAtMost(vs, hi);
      MeanAtMost(ds, hi);
    }
  }

  /** An average of values that are all at least lo is at least lo. */
  lemma AvgAtLeast(vs: seq<Option<real>>, lo: real)
    requires forall i :: 0 <= i < |vs| && vs[i].Some? ==> lo <= vs[i].value
    ensures SqlAvg(vs).Some? ==> lo <= SqlAvg(vs).value
  {
    var ds := Defined(vs);
    if ds != [] {
      DefinedAtLeast(vs, lo);
      MeanAtLeast(ds, lo);
    }
  }

  /** AVG(f(row)) over a group is NULL exactly when f is NULL on every row of it. */
  lemma AvgOfColumnNullIff<T>(g: seq<T>, f: T -> Option<real>)
    ensures SqlAvg(Map(g, f)) == None <==> forall i :: 0 <= i < |g| ==> f(g[i]) == None
  {
    AvgNullIffAllNull(Map(g, f));
  }
}
