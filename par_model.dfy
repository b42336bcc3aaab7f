/**
 * The value level of the parameter editor: timing-model parameters, the
 * text rows of the editing table, how a model is projected into rows and
 * how a table of rows is reconciled back into a model (qtipint/paredit.py).
 */
module ParModel {
  import opened Wrappers

  /**
   * The host language's conversions between text and floating point:
   * `parse` is `float(s)` (None where it raises), `show` is `str(x)`.
   * Both are left abstract; what a lemma needs of them is stated, per
   * parameter, by `Rereadable`.
   */
  datatype NumberFormat = NumberFormat(parse: string -> Option<real>, show: real -> string)

  /** The value of a parameter, as far as the table can write and read it. */
  datatype Value = Number(x: real) | Flag(b: bool) | Text(s: string)

  /** One timing-model parameter: `value`, `frozen` and `uncertainty_value`. */
  datatype Param = Param(value: Option<Value>, frozen: bool, uncertainty: Option<real>)

  /** One table row: name, value text, the fit checkbox and uncertainty text. */
  datatype Row = Row(name: string, valueText: string, fit: bool, uncertaintyText: string)

  /** The row `insertRow` creates: empty texts and an unchecked fit box. */
  const BlankRow := Row("", "", false, "")

  /** The parameters of a timing model, by name. */
  type Attrs = map<string, Param>

  /**
   * A timing model as the editor sees it: every listed parameter exists,
   * and no parameter has the empty name (so a blank row never matches one).
   */
  predicate WellFormed(params: seq<string>, attrs: Attrs)
  {
    "" !in attrs && forall i :: 0 <= i < |params| ==> params[i] in attrs
  }

  /** `str(v)` */
  function ValueText(v: Value, fmt: NumberFormat): string
  {
    match v
    case Number(x) => fmt.show(x)
    case Flag(b) => if b then "True" else "False"
    case Text(s) => s
  }

  /** `str(val) if val is not None else ''` */
  function CellText(v: Option<Value>, fmt: NumberFormat): string
  {
    match v
    case None => ""
    case Some(w) => ValueText(w, fmt)
  }

  /** `str(uval) if uval is not None else ''` */
  function UncertaintyText(u: Option<real>, fmt: NumberFormat): string
  {
    match u
    case None => ""
    case Some(x) => fmt.show(x)
  }

  /** The row `addTable` writes for one parameter; the box is checked iff the parameter is fitted. */
  function ParamRow(name: string, p: Param, fmt: NumberFormat): Row
  {
    Row(name, CellText(p.value, fmt), !p.frozen, UncertaintyText(p.uncertainty, fmt))
  }

  /** The whole table `addTable` builds from a model: one row per parameter, in `params` order. */
  function Project(params: seq<string>, attrs: Attrs, fmt: NumberFormat): (rows: seq<Row>)
    requires WellFormed(params, attrs)
    ensures |rows| == |params|
    ensures forall i :: 0 <= i < |params| ==> rows[i].name == params[i]
    ensures forall i :: 0 <= i < |params| ==> (rows[i].fit <==> !attrs[params[i]].frozen)
  {
    seq(|params|, i requires 0 <= i < |params| => ParamRow(params[i], attrs[params[i]], fmt))
  }

  /**
   * How `updateModel` reads a non-empty value cell: a float if it parses,
   * otherwise a boolean for exactly `True` and `False`, otherwise the raw
   * text itself (the message printed in that case does not stop the store).
   */
  function Classify(text: string, fmt: NumberFormat): (v: Value)
    ensures v.Number? <==> fmt.parse(text).Some?
    ensures v.Number? ==> fmt.parse(text) == Some(v.x)
    ensures v.Flag? <==> fmt.parse(text).None? && (text == "True" || text == "False")
    ensures v.Text? <==> fmt.parse(text).None? && text != "True" && text != "False"
    ensures !v.Number? ==> ValueText(v, fmt) == text
  {
    match fmt.parse(text)
    case Some(x) => Number(x)
    case None =>
      if text == "True" then Flag(true)
      else if text == "False" then Flag(false)
      else Text(text)
  }

  /** One row applied, field by field, to the parameter it names. */
  function ApplyRow(p: Param, row: Row, fmt: NumberFormat): (q: Param)
    ensures q.frozen == !row.fit
    ensures row.valueText == "" ==> q.value == p.value
    ensures row.valueText != "" ==> q.value == Some(Classify(row.valueText, fmt))
    ensures row.uncertaintyText == "" || fmt.parse(row.uncertaintyText).None? ==> q.uncertainty == p.uncertainty
    ensures row.uncertaintyText != "" && fmt.parse(row.uncertaintyText).Some? ==>
              q.uncertainty == fmt.parse(row.uncertaintyText)
  {
    var value := if row.valueText == "" then p.value else Some(Classify(row.valueText, fmt));
    var uncertainty :=
      if row.uncertaintyText == "" then p.uncertainty
      else match fmt.parse(row.uncertaintyText)
        case Some(u) => Some(u)
        case None => p.uncertainty;
    Param(value, !row.fit, uncertainty)
  }

  /** One iteration of `updateModel`: a row whose name is not a parameter is skipped. */
  function Step(m: Attrs, row: Row, fmt: NumberFormat): Attrs
  {
    if row.name in m then m[row.name := ApplyRow(m[row.name], row, fmt)] else m
  }

  /** `updateModel`: the rows applied in table order; no parameter is ever added or removed. */
  function Reconcile(m: Attrs, rows: seq<Row>, fmt: NumberFormat): (r: Attrs)
    ensures r.Keys == m.Keys
    decreases |rows|
  {
    if rows == [] then m
    else Step(Reconcile(m, rows[..|rows| - 1], fmt), rows[|rows| - 1], fmt)
  }

  // Reference definitions: what each field of parameter `x` ends up as,
  // read off the table directly rather than by applying it row by row.

  /** The last row of the table that names `x`. */
  function LastRowNamed(rows: seq<Row>, x: string): Option<Row>
    decreases |rows|
  {
    if rows == [] then None
    else if rows[|rows| - 1].name == x then Some(rows[|rows| - 1])
    else LastRowNamed(rows[..|rows| - 1], x)
  }

  /** The last non-empty value text among the rows that name `x`. */
  function LastValueText(rows: seq<Row>, x: string): Option<string>
    decreases |rows|
  {
    if rows == [] then None
    else
      var last := rows[|rows| - 1];
      if last.name == x && last.valueText != "" then Some(last.valueText)
      else LastValueText(rows[..|rows| - 1], x)
  }

  /** The last uncertainty among the rows that name `x` whose text is non-empty and parses. */
  function LastUncertainty(rows: seq<Row>, x: string, fmt: NumberFormat): Option<real>
    decreases |rows|
  {
    if rows == [] then None
    else
      var last := rows[|rows| - 1];
      if last.name == x && last.uncertaintyText != "" && fmt.parse(last.uncertaintyText).Some?
      then fmt.parse(last.uncertaintyText)
      else LastUncertainty(rows[..|rows| - 1], x, fmt)
  }

  /** Parameter `p`, named `x`, after the table: each field from the last row that sets it. */
  function Settled(p: Param, rows: seq<Row>, x: string, fmt: NumberFormat): Param
  {
    Param(
      match LastValueText(rows, x)
        case None => p.value
        case Some(t) => Some(Classify(t, fmt)),
      match LastRowNamed(rows, x)
        case None => p.frozen
        case Some(r) => !r.fit,
      match LastUncertainty(rows, x, fmt)
        case None => p.uncertainty
        case Some(u) => Some(u))
  }

  /**
   * Applying the table row by row agrees with the reference definition:
   * `frozen` is the negated box of the last row naming the parameter, and
   * `value` and `uncertainty_value` come from the last row that sets them
   * (a non-empty text; for the uncertainty, one that parses), else stay.
   */
  lemma {:induction false} ReconcileAt(m: Attrs, rows: seq<Row>, x: string, fmt: NumberFormat)
    requires x in m
    ensures x in Reconcile(m, rows, fmt)
    ensures Reconcile(m, rows, fmt)[x] == Settled(m[x], rows, x, fmt)
    decreases |rows|
  {
    if rows != [] {
      ReconcileAt(m, rows[..|rows| - 1], x, fmt);
    }
  }

  /** Applying a table in two parts is applying the first part, then the second. */
  lemma {:induction false} ReconcileAppend(m: Attrs, a: seq<Row>, b: seq<Row>, fmt: NumberFormat)
    ensures Reconcile(m, a + b, fmt) == Reconcile(Reconcile(m, a, fmt), b, fmt)
    decreases |b|
  {
    if b == [] {
      assert a + b == a;
    } else {
      var b' := b[..|b| - 1];
      assert (a + b)[..|a + b| - 1] == a + b';
      assert (a + b)[|a + b| - 1] == b[|b| - 1];
      ReconcileAppend(m, a, b', fmt);
    }
  }

  /**
   * A row whose name is not a parameter of the model, wherever it stands
   * in the table, changes nothing: the result is that of the table without it.
   */
  lemma UnknownRowIgnored(m: Attrs, a: seq<Row>, u: Row, b: seq<Row>, fmt: NumberFormat)
    requires u.name !in m
    ensures Reconcile(m, a + [u] + b, fmt) == Reconcile(m, a + b, fmt)
  {
    ReconcileAppend(m, a + [u], b, fmt);
    ReconcileAppend(m, a, b, fmt);
    assert (a + [u])[..|a + [u]| - 1] == a;
  }

  /** A blank row, such as `addRow` inserts, changes nothing when applied to a well-formed model. */
  lemma BlankRowIgnored(params: seq<string>, m: Attrs, a: seq<Row>, b: seq<Row>, fmt: NumberFormat)
    requires WellFormed(params, m)
    ensures Reconcile(m, a + [BlankRow] + b, fmt) == Reconcile(m, a + b, fmt)
  {
    UnknownRowIgnored(m, a, BlankRow, b, fmt);
  }

  /** A table none of whose rows names a parameter leaves the model exactly as it was. */
  lemma {:induction false} UnknownRowsIgnored(m: Attrs, rows: seq<Row>, fmt: NumberFormat)
    requires forall i :: 0 <= i < |rows| ==> rows[i].name !in m
    ensures Reconcile(m, rows, fmt) == m
    decreases |rows|
  {
    if rows != [] {
      UnknownRowsIgnored(m, rows[..|rows| - 1], fmt);
    }
  }

  /** If no row names `x`, every non-matching row leaves it alone: its entry is unchanged. */
  lemma {:induction false} UnnamedUnchanged(m: Attrs, rows: seq<Row>, x: string, fmt: NumberFormat)
    requires x in m
    requires forall i :: 0 <= i < |rows| ==> rows[i].name != x
    ensures Reconcile(m, rows, fmt)[x] == m[x]
    decreases |rows|
  {
    if rows != [] {
      UnnamedUnchanged(m, rows[..|rows| - 1], x, fmt);
    }
  }

  /** Applying the same table twice is the same as applying it once. */
  lemma ReconcileIdempotent(m: Attrs, rows: seq<Row>, fmt: NumberFormat)
    ensures Reconcile(Reconcile(m, rows, fmt), rows, fmt) == Reconcile(m, rows, fmt)
  {
    var once := Reconcile(m, rows, fmt);
    var twice := Reconcile(once, rows, fmt);
    forall x | x in m
      ensures twice[x] == once[x]
    {
      ReconcileAt(m, rows, x, fmt);
      ReconcileAt(once, rows, x, fmt);
    }
  }

  /**
   * The texts the table writes for `p` read back as `p`'s own value and
   * uncertainty: `float(str(n)) == n` for the numbers it holds, a boolean's
   * literal is not read as a number, and a text value is empty or reads
   * as neither a number nor a boolean.
   */
  predicate Rereadable(p: Param, fmt: NumberFormat)
  {
    && (match p.value
        case None => true
        case Some(Number(n)) => fmt.parse(fmt.show(n)) == Some(n)
        case Some(Flag(b)) => fmt.parse(if b then "True" else "False") == None
        case Some(Text(s)) => s == "" || (fmt.parse(s).None? && s != "True" && s != "False"))
    && (match p.uncertainty
        case None => true
        case Some(u) => fmt.parse(fmt.show(u)) == Some(u))
  }

  /** Every cell of `p`'s row carries text: a value and an uncertainty, neither printed empty. */
  predicate Filled(p: Param, fmt: NumberFormat)
  {
    CellText(p.value, fmt) != "" && UncertaintyText(p.uncertainty, fmt) != ""
  }

  /** Every row naming `x` is `r`: the last-row definitions pick `r`, or nothing if no row names `x`. */
  lemma {:induction false} UniformRows(rows: seq<Row>, x: string, r: Row, fmt: NumberFormat)
    requires r.name == x
    requires forall i :: 0 <= i < |rows| && rows[i].name == x ==> rows[i] == r
    ensures (exists i :: 0 <= i < |rows| && rows[i].name == x) ==> LastRowNamed(rows, x) == Some(r)
    ensures (forall i :: 0 <= i < |rows| ==> rows[i].name != x) ==> LastRowNamed(rows, x) == None
    ensures LastValueText(rows, x) == None || LastValueText(rows, x) == Some(r.valueText)
    ensures r.valueText == "" ==> LastValueText(rows, x) == None
    ensures LastRowNamed(rows, x).Some? && r.valueText != "" ==> LastValueText(rows, x) == Some(r.valueText)
    ensures LastRowNamed(rows, x).None? ==> LastValueText(rows, x).None? && LastUncertainty(rows, x, fmt).None?
    ensures LastRowNamed(rows, x).Some? && r.uncertaintyText != "" ==>
              LastUncertainty(rows, x, fmt) == fmt.parse(r.uncertaintyText)
    ensures r.uncertaintyText == "" ==> LastUncertainty(rows, x, fmt) == None
    decreases |rows|
  {
    if rows != [] {
      var init := rows[..|rows| - 1];
      UniformRows(init, x, r, fmt);
      if rows[|rows| - 1].name != x {
        if exists i :: 0 <= i < |rows| && rows[i].name == x {
          var i :| 0 <= i < |rows| && rows[i].name == x;
          assert init[i].name == x;
        }
      }
    }
  }

  /**
   * Loading a model into the table and applying the unedited table gives
   * back the model, provided each parameter's texts read back as its own
   * value and uncertainty.
   */
  lemma ProjectRoundTrip(params: seq<string>, attrs: Attrs, fmt: NumberFormat)
    requires WellFormed(params, attrs)
    requires forall x :: x in attrs ==> Rereadable(attrs[x], fmt)
    ensures Reconcile(attrs, Project(params, attrs, fmt), fmt) == attrs
  {
    var rows := Project(params, attrs, fmt);
    var r := Reconcile(attrs, rows, fmt);
    forall x | x in attrs
      ensures r[x] == attrs[x]
    {
      var p := attrs[x];
      ReconcileAt(attrs, rows, x, fmt);
      UniformRows(rows, x, ParamRow(x, p, fmt), fmt);
      if LastRowNamed(rows, x).Some? {
        if p.value.Some? && CellText(p.value, fmt) != "" {
          match p.value.value
          case Number(n) =>
          case Flag(b) =>
          case Text(s) =>
        }
      }
    }
  }

  /** Whatever the texts, applying the unedited table leaves every `frozen` flag as it was. */
  lemma ProjectKeepsFrozen(params: seq<string>, attrs: Attrs, fmt: NumberFormat)
    requires WellFormed(params, attrs)
    ensures forall x :: x in attrs ==> Reconcile(attrs, Project(params, attrs, fmt), fmt)[x].frozen == attrs[x].frozen
  {
    var rows := Project(params, attrs, fmt);
    forall x | x in attrs
      ensures Reconcile(attrs, rows, fmt)[x].frozen == attrs[x].frozen
    {
      ReconcileAt(attrs, rows, x, fmt);
      UniformRows(rows, x, ParamRow(x, attrs[x], fmt), fmt);
    }
  }

  /** A parameter whose filled, rereadable row is in the table ends up as that row says, whatever it was. */
  lemma SettledFromRow(rows: seq<Row>, x: string, p: Param, q: Param, fmt: NumberFormat)
    requires Rereadable(p, fmt) && Filled(p, fmt)
    requires forall i :: 0 <= i < |rows| && rows[i].name == x ==> rows[i] == ParamRow(x, p, fmt)
    requires exists i :: 0 <= i < |rows| && rows[i].name == x
    ensures Settled(q, rows, x, fmt) == p
  {
    UniformRows(rows, x, ParamRow(x, p, fmt), fmt);
    match p.value.value
    case Number(n) =>
    case Flag(f) =>
    case Text(t) =>
  }

  /** One parameter of `ProjectOverwrites`: its entry after the table is its entry in `a`. */
  lemma OverwriteKey(params: seq<string>, a: Attrs, b: Attrs, x: string, fmt: NumberFormat)
    requires WellFormed(params, a) && x in a && x in b && x in params
    requires Rereadable(a[x], fmt) && Filled(a[x], fmt)
    ensures Reconcile(b, Project(params, a, fmt), fmt)[x] == a[x]
  {
    var rows := Project(params, a, fmt);
    ReconcileAt(b, rows, x, fmt);
    var i :| 0 <= i < |params| && params[i] == x;
    assert rows[i].name == x;
    SettledFromRow(rows, x, a[x], b[x], fmt);
  }

  /**
   * The table carries the values: applying the table loaded from model `a`
   * to any model `b` with the same parameters gives `a`, when every
   * parameter of `a` is listed, every cell is filled and reads back.
   */
  lemma ProjectOverwrites(params: seq<string>, a: Attrs, b: Attrs, fmt: NumberFormat)
    requires WellFormed(params, a) && b.Keys == a.Keys
    requires forall x :: x in a ==> x in params
    requires forall x :: x in a ==> Rereadable(a[x], fmt) && Filled(a[x], fmt)
    ensures Reconcile(b, Project(params, a, fmt), fmt) == a
  {
    var r := Reconcile(b, Project(params, a, fmt), fmt);
    forall x | x in a
      ensures r[x] == a[x]
    {
      OverwriteKey(params, a, b, x, fmt);
    }
  }
}
