/** SQL and Python value semantics shared by every stage: nullable values,
    the errors a stage can raise, NULL-propagating arithmetic and the SUM
    aggregate (which skips NULLs and is NULL over no non-NULL input). */
module Sql {

  /** A nullable column value (SQL NULL, Python None). */
  datatype Option<+T> = None | Some(value: T)

  /** The exceptions and database errors the stages can raise. */
  datatype Error =
    | ValueError         // Python str.index on a missing character
    | NameError          // Python name that is not bound
    | TypeError          // Python iteration over None / arithmetic on None
    | AttributeError     // Python method call on None
    | IndexError         // Python list index past the end
    | ZeroDivisionError  // Python division by zero
    | DuplicateColumn    // ALTER TABLE ADD COLUMN of a column that exists
    | MissingColumn      // a query names a column the table does not have
    | MissingTable       // a statement names a table that does not exist
    | InvalidSql         // a generated query that does not parse
    | ConversionError    // text that is not a geometry or a number

  datatype Result<+T> = Ok(value: T) | Err(error: Error)

  /** SQL `a + b`: NULL if either operand is NULL. */
  function Add(a: Option<real>, b: Option<real>): (r: Option<real>)
    ensures r.Some? <==> a.Some? && b.Some?
    ensures r.Some? ==> r.value == a.value + b.value
  {
    if a.Some? && b.Some? then Some(a.value + b.value) else None
  }

  /** SQL `+` on nullable reals: NULL absorbs from either side, the operands
      commute and associate, and 0 is neutral. */
  lemma AddLaws(a: Option<real>, b: Option<real>, c: Option<real>)
    ensures Add(a, None) == None && Add(None, b) == None
    ensures Add(a, b) == Add(b, a)
    ensures Add(Add(a, b), c) == Add(a, Add(b, c))
    ensures Add(a, Some(0.0)) == a
  {
  }

  /** SQL `1.0 / (d * d)`; a zero divisor gives NULL. */
  function InvSquare(d: Option<real>): (r: Option<real>)
    ensures r.Some? <==> d.Some? && d.value != 0.0
    ensures r.Some? ==> r.value > 0.0 && r.value * d.value * d.value == 1.0
  {
    if d.Some? && d.value != 0.0 then Some(1.0 / (d.value * d.value)) else None
  }

  /** The term of a nonzero distance is its inverse square. */
  lemma InvSquareValue(d: real)
    requires d != 0.0
    ensures InvSquare(Some(d)).Some? && InvSquare(Some(d)).value == 1.0 / (d * d)
  {
  }

  /** One step of SUM: add a value into a running sum that may still be NULL. */
  function Merge(x: Option<real>, acc: Option<real>): Option<real>
  {
    match (x, acc)
    case (None, _) => acc
    case (Some(v), None) => Some(v)
    case (Some(v), Some(s)) => Some(v + s)
  }

  /** The SQL SUM aggregate over a column. */
  function Sum(xs: seq<Option<real>>): Option<real>
  {
    if xs == [] then None else Merge(xs[0], Sum(xs[1..]))
  }

  /** The plain sum of the non-NULL values. */
  function SumOfValues(xs: seq<Option<real>>): real
  {
    if xs == [] then 0.0
    else (if xs[0].Some? then xs[0].value else 0.0) + SumOfValues(xs[1..])
  }

  /** SUM is NULL exactly when no input is non-NULL, and is otherwise the
      sum of the non-NULL inputs. */
  lemma {:induction false} SumMeaning(xs: seq<Option<real>>)
    ensures Sum(xs).None? <==> forall i :: 0 <= i < |xs| ==> xs[i].None?
    ensures Sum(xs).Some? ==> Sum(xs).value == SumOfValues(xs)
  {
    if xs != [] {
      SumMeaning(xs[1..]);
      if Sum(xs[1..]).None? {
        assert forall i :: 1 <= i < |xs| ==> xs[i].None? by {
          forall i | 1 <= i < |xs| ensures xs[i].None? { assert xs[1..][i - 1] == xs[i]; }
        }
        ZeroWhenAllNull(xs[1..]);
      } else {
        var j :| 0 <= j < |xs[1..]| && xs[1..][j].Some?;
        assert xs[j + 1].Some?;
      }
    }
  }

  lemma {:induction false} ZeroWhenAllNull(xs: seq<Option<real>>)
    requires forall i :: 0 <= i < |xs| ==> xs[i].None?
    ensures SumOfValues(xs) == 0.0
  {
    if xs != [] {
      assert forall i :: 0 <= i < |xs[1..]| ==> xs[1..][i] == xs[i + 1];
      ZeroWhenAllNull(xs[1..]);
    }
  }
}
