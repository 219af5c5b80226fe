/**
  The height converter of the utilities file: a bare positive number of
  unknown unit is read as metres, feet or centimetres according to the
  first of three overlapping ranges that contains it, and converted to metres.
 */
module Heights {
  import opened Wrappers

  /** The two errors the converter throws. */
  datatype SizeError =
    | NotPositive   // the size is zero or negative
    | OutOfRange    // the size lies in no recognised range

  /** The message each error carries. */
  function Message(e: SizeError): string {
    match e
    case NotPositive => "La taille doit être un nombre positif."
    case OutOfRange => "La taille fournie n'est pas dans une plage raisonnable pour être interprétée."
  }

  /** The two errors are told apart by their messages. */
  lemma ErrorMessagesDiffer()
    ensures Message(NotPositive) != Message(OutOfRange)
  {
  }

  /** One foot, in metres. */
  const FootInMeters: real := 0.3048

  /**
    `convertToMeters(size)`. The checks run in order, so a size in two ranges
    (exactly 3 is both metres and feet) takes the first. Every successful
    result is a height between 0.1 m and 3.048 m.
   */
  function ConvertToMeters(size: real): (r: Result<real, SizeError>)
    ensures size <= 0.0 <==> r == Failure(NotPositive)
    ensures r.Success? ==> 0.1 <= r.value <= 3.048
    ensures r.Success? ==> r.value == size || r.value == size * FootInMeters || r.value == size / 100.0
  {
    if size <= 0.0 then Failure(NotPositive)
    else if 0.1 <= size <= 3.0 then Success(size)
    else if 3.0 <= size <= 10.0 then Success(size * FootInMeters)
    else if 30.0 <= size <= 300.0 then Success(size / 100.0)
    else Failure(OutOfRange)
  }

  /**
    The ordered checks, restated as disjoint intervals: identity on [0.1, 3],
    feet on (3, 10], centimetres on [30, 300], and an out-of-range error on
    (0, 0.1), (10, 30) and (300, ∞).
   */
  lemma ConversionByInterval(size: real)
    ensures 0.1 <= size <= 3.0 ==> ConvertToMeters(size) == Success(size)
    ensures 3.0 < size <= 10.0 ==> ConvertToMeters(size) == Success(size * FootInMeters)
    ensures 30.0 <= size <= 300.0 ==> ConvertToMeters(size) == Success(size / 100.0)
    ensures (0.0 < size < 0.1 || 10.0 < size < 30.0 || 300.0 < size) ==> ConvertToMeters(size) == Failure(OutOfRange)
  {
  }

  /** The converter succeeds exactly on the union of the three ranges. */
  lemma ConversionSucceedsIff(size: real)
    ensures ConvertToMeters(size).Success? <==> (0.1 <= size <= 10.0 || 30.0 <= size <= 300.0)
  {
  }

  /**
    Exactly 3 lies in both the metre and the foot range; the metre check comes
    first, and the two readings differ.
   */
  lemma BoundaryThreeIsMeters()
    ensures ConvertToMeters(3.0) == Success(3.0)
    ensures ConvertToMeters(3.0) != Success(3.0 * FootInMeters)
  {
  }

  /** Both ends of the output range are reached: 0.1 m from 0.1 and 3.048 m from 10 feet. */
  lemma OutputBoundsAttained()
    ensures ConvertToMeters(0.1) == Success(0.1)
    ensures ConvertToMeters(10.0) == Success(3.048)
  {
  }

  /**
    The readings are ambiguous: every height from 0.3 m to 3 m is produced both
    by its value in metres and by its value in centimetres.
   */
  lemma MetresAndCentimetresCollide(m: real)
    requires 0.3 <= m <= 3.0
    ensures ConvertToMeters(m) == Success(m)
    ensures ConvertToMeters(m * 100.0) == Success(m)
  {
  }

  /** The examples of the utilities' test suite, exact in real arithmetic. */
  lemma TestSuiteExamples()
    ensures ConvertToMeters(1.75) == Success(1.75)
    ensures ConvertToMeters(0.1) == Success(0.1)
    ensures ConvertToMeters(3.0) == Success(3.0)
    ensures ConvertToMeters(6.0) == Success(1.8288)
    ensures ConvertToMeters(3.1) == Success(0.94488)
    ensures ConvertToMeters(9.9) == Success(3.01752)
    ensures ConvertToMeters(175.0) == Success(1.75)
    ensures ConvertToMeters(30.0) == Success(0.3)
    ensures ConvertToMeters(300.0) == Success(3.0)
    ensures ConvertToMeters(-10.0) == Failure(NotPositive)
    ensures ConvertToMeters(0.0) == Failure(NotPositive)
    ensures ConvertToMeters(1000.0) == Failure(OutOfRange)
  {
  }
}
