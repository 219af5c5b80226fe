/**
  The personnel record: age, height and weight of a person, each a required
  column with inclusive `min`/`max` validators, and how heights coming out of
  the converter relate to the stored height's bounds.
 */
module Personnel {
  import opened Wrappers
  import Heights

  /** A personnel row; `None` is a NULL column. Height in metres, weight in kilograms. */
  datatype Personnel = Personnel(age: Option<int>, taille: Option<real>, poids: Option<real>)

  /** The validated columns, in declaration order. */
  datatype Field = Age | Taille | Poids

  /** What the ORM reports about one column. */
  datatype Violation =
    | IsNull(field: Field)     // `allowNull: false` on a NULL value
    | BelowMin(field: Field)   // the `min` validator failed
    | AboveMax(field: Field)   // the `max` validator failed

  /** The inclusive bounds of a column's `min` and `max` validators. */
  datatype Bounds = Bounds(min: real, max: real)

  function BoundsOf(f: Field): Bounds {
    match f
    case Age => Bounds(16.0, 100.0)
    case Taille => Bounds(0.5, 2.5)
    case Poids => Bounds(20.0, 300.0)
  }

  /** The value of a column, as the validators see it. */
  function ValueOf(p: Personnel, f: Field): Option<real> {
    match f
    case Age => if p.age.Some? then Some(p.age.value as real) else None
    case Taille => p.taille
    case Poids => p.poids
  }

  /** Validates one column: a NULL skips the range validators; otherwise at most one bound can fail. */
  function CheckColumn(p: Personnel, f: Field): (errs: seq<Violation>)
    ensures |errs| <= 1
    ensures forall k :: 0 <= k < |errs| ==> errs[k].field == f
    ensures errs == [] <==> ValueOf(p, f).Some? && BoundsOf(f).min <= ValueOf(p, f).value <= BoundsOf(f).max
    ensures IsNull(f) in errs <==> ValueOf(p, f).None?
    ensures BelowMin(f) in errs <==> ValueOf(p, f).Some? && ValueOf(p, f).value < BoundsOf(f).min
    ensures AboveMax(f) in errs <==> ValueOf(p, f).Some? && ValueOf(p, f).value > BoundsOf(f).max
  {
    match ValueOf(p, f)
    case None => [IsNull(f)]
    case Some(v) =>
      if v < BoundsOf(f).min then [BelowMin(f)]
      else if v > BoundsOf(f).max then [AboveMax(f)]
      else []
  }

  /** A personnel row the ORM accepts: every column present, age in [16, 100], height in [0.5, 2.5] m, weight in [20, 300] kg. */
  predicate IsValidPersonnel(p: Personnel) {
    && p.age.Some? && 16 <= p.age.value <= 100
    && p.taille.Some? && 0.5 <= p.taille.value <= 2.5
    && p.poids.Some? && 20.0 <= p.poids.value <= 300.0
  }

  /**
    Validation of a whole row, collecting the violations of every column.
    It finds nothing exactly when the row is valid, reports each column at most once,
    a missing column as such, and blames a value out of range on its own column and bound.
   */
  function Validate(p: Personnel): (errs: seq<Violation>)
    ensures errs == [] <==> IsValidPersonnel(p)
    ensures |errs| <= 3
    ensures forall i, j :: 0 <= i < j < |errs| ==> errs[i].field != errs[j].field
    ensures IsNull(Age) in errs <==> p.age.None?
    ensures IsNull(Taille) in errs <==> p.taille.None?
    ensures IsNull(Poids) in errs <==> p.poids.None?
    ensures forall f :: BelowMin(f) in errs <==> ValueOf(p, f).Some? && ValueOf(p, f).value < BoundsOf(f).min
    ensures forall f :: AboveMax(f) in errs <==> ValueOf(p, f).Some? && ValueOf(p, f).value > BoundsOf(f).max
  {
    CheckColumn(p, Age) + CheckColumn(p, Taille) + CheckColumn(p, Poids)
  }

  /** The heights in metres a row may store. */
  predicate IsStorableTaille(t: real) {
    BoundsOf(Taille).min <= t <= BoundsOf(Taille).max
  }

  /**
    The sizes whose conversion yields a storable height are exactly
    [0.5, 2.5] read as metres, (3, 2.5 / 0.3048] (one foot being 0.3048 m) read as feet and [50, 250]
    read as centimetres. In particular sizes in (2.5, 3] convert but cannot be stored.
   */
  lemma StorableConvertedSizes(size: real)
    ensures (Heights.ConvertToMeters(size).Success? && IsStorableTaille(Heights.ConvertToMeters(size).value))
            <==> (0.5 <= size <= 2.5 || (3.0 < size && size * Heights.FootInMeters <= 2.5) || 50.0 <= size <= 250.0)
  {
  }

  /** A successful conversion does not make a height storable: 0.1 and 10 convert to 0.1 m and 3.048 m. */
  lemma ConversionDoesNotImplyStorable()
    ensures Heights.ConvertToMeters(0.1) == Success(0.1) && !IsStorableTaille(0.1)
    ensures Heights.ConvertToMeters(10.0) == Success(3.048) && !IsStorableTaille(3.048)
  {
  }

  /** Every storable height is reachable through the converter, by entering it in metres. */
  lemma StorableTailleIsConvertible(t: real)
    requires IsStorableTaille(t)
    ensures Heights.ConvertToMeters(t) == Success(t)
  {
  }
}
