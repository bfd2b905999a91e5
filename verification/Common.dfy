/** Results and the failures the sampled-trace tool can report. */
module Common {

  /** One constructor for each way the modelled code raises. */
  datatype Error =
    | TruncatedVarint
    | VarintOverflow
    | VarintTooLong
    | BadMagic
    | BadVersion
    | BadOpcodeTable
    | BadRecordField
    | BadSpaceMasks
    | BadStridePairs
    | BadNumber
    | MalformedLine
    | TooManyStrides
    | BaseCountMismatch
    | MixedSpaces
    | SequenceOrder
    | SequenceGap
    | OutsideGrid
    | TooFewPoints
    | MissingTrainingCta
    | NonIntegralStride
    | DoesNotFit
    | NotIdentifiable
    | MissingKey
    | HeterogeneousStructure
    | HoldoutMismatch
    | BadClassTable
    | EmptyTemplate
    | NegativeBase
    | BadIssueMap
    | BadSelection
    | Overflow

  datatype Option<+T> = None | Some(value: T)

  datatype Result<+T> = Ok(value: T) | Err(error: Error) {
    predicate IsFailure() {
      Err?
    }

    function PropagateFailure<U>(): Result<U>
      requires Err?
    {
      Err(error)
    }

    function Extract(): T
      requires Ok?
    {
      value
    }
  }

  datatype Outcome = Pass | Fail(error: Error)

  /** What a loop has read so far, followed by what the rest yields. */
  function Append<T>(done: seq<T>, tail: Result<seq<T>>): Result<seq<T>> {
    match tail
    case Ok(s) => Ok(done + s)
    case Err(e) => Err(e)
  }

  lemma AppendEnds<T>(done: seq<T>, tail: Result<seq<T>>)
    ensures Append([], tail) == tail && Append(done, Ok([])) == Ok(done)
  {
    assert done + [] == done;
    if tail.Ok? {
      assert [] + tail.value == tail.value;
    }
  }
}
