/** Error outcomes of the simulator and the failure-compatible Result type that
    carries them. Each constructor of Error stands for one `raise` site (or one
    exception raised by a library the code calls); `Kind` names the Python
    exception class the caller would see. */
module Outcomes {

  /** Python exception classes that reach the caller. */
  datatype PyException =
    | ValueError
    | TypeError
    | KeyError
    | IndexError
    | AttributeError
    | NotImplementedError
    | ZeroDivisionError
    | NetworkXPointlessConcept
    | UserError   // raised inside a user-supplied location or waveform function

  datatype Error =
    // coupling_graph.py and the networkx calls it makes
    | GraphHasCycles
    | GraphHasNoNodes
    | StartNodeNotInGraph(node: int)
    | ChoiceFromEmptyList
    // snr.py
    | BandLimitsMissing
    | SourcesMissingFromForward
    | ZeroNoiseVariance
    | ZeroSignalVariance
    | NoNoiseSources
    | SnrCountMismatch
    | UnknownSourceName(name: string)
    | MissingSnrParam(key: string)
    | SnrParamsNotSubscriptable
    | ZeroSamplingRate
    // _check.py
    | VerticesNotListOrTuple
    | VertexNotListOrTuple(position: nat)
    | VertexNotPair(position: nat)
    | SpaceIndexNotInteger(position: nat)
    | SpaceIndexTooLarge(position: nat)
    | SpaceIndexBelowRange(position: nat)
    | VertexNotInSpace(position: nat)
    | WaveformRowMismatch(expected: nat, got: nat)
    | WaveformSampleMismatch(expected: nat, got: nat)
    | WaveformAxisMissing(axis: nat)
    | NameCountMismatch(expected: nat, got: nat)
    | SnrNotSupported
    | DuplicateKeywordArgument(key: string)
    | RaisedByCallable(what: string)
    // source_groups.py
    | SimulateNotImplemented
    | PatchGroupHasNoCreate
    | PointSourceHasNoCreate
    // simulate.py
    | CouplingNotSupported
    | NoSourcesAdded
    | ForwardModelRequired
    // configuration.py
    | TooFewSamples
    // sources.py
    | SourceNameCountMismatch(expected: nat, got: nat)
    | WaveformShapeMismatch
    | SourceSpaceIndexOutOfRange(index: int)
    | KeywordsNotMapping
    | NotIterable
    // utils.py
    | SourceSpaceFieldsMissing
    | UnexpectedSurfaceId
    | TooFewTimePoints
    | TimesNotUniform
    // numpy, inside combine_stcs
    | IndexOutOfBounds
    | ShapeMismatch
    | NothingToConcatenate

  /** The Python exception class each error surfaces as. */
  function Kind(e: Error): PyException
  {
    match e
    case GraphHasNoNodes => NetworkXPointlessConcept
    case StartNodeNotInGraph(_) => KeyError
    case UnknownSourceName(_) => KeyError
    case MissingSnrParam(_) => KeyError
    case SnrParamsNotSubscriptable => TypeError
    case ZeroSamplingRate => ZeroDivisionError
    case SpaceIndexNotInteger(_) => TypeError
    case SpaceIndexBelowRange(_) => IndexError
    case SourceSpaceIndexOutOfRange(_) => IndexError
    case WaveformAxisMissing(_) => IndexError
    case TooFewSamples => IndexError
    case IndexOutOfBounds => IndexError
    case DuplicateKeywordArgument(_) => TypeError
    case KeywordsNotMapping => TypeError
    case NotIterable => TypeError
    case SnrNotSupported => NotImplementedError
    case SimulateNotImplemented => NotImplementedError
    case CouplingNotSupported => NotImplementedError
    case PatchGroupHasNoCreate => AttributeError
    case PointSourceHasNoCreate => AttributeError
    case RaisedByCallable(_) => UserError
    case _ => ValueError
  }

  /** A Python value that may be None. */
  datatype Option<+T> = None | Some(value: T)

  datatype Result<+T> = Ok(value: T) | Err(error: Error)
  {
    predicate IsFailure() { Err? }

    function PropagateFailure<U>(): Result<U>
      requires Err?
    {
      Err(error)
    }

    function Extract(): T
      requires Ok?
    {
      value
    }
  }

  /** A check that returns nothing on success. */
  datatype Outcome = Pass | Fail(error: Error)
  {
    predicate IsFailure() { Fail? }

    function PropagateFailure<U>(): Result<U>
      requires Fail?
    {
      Err(error)
    }
  }

  /** A loop that stops at the first failing step: all values when every step
      succeeds, otherwise the error of the first step that failed. */
  function Collect<T>(steps: seq<Result<T>>): (r: Result<seq<T>>)
    ensures r.Ok? <==> forall k :: 0 <= k < |steps| ==> steps[k].Ok?
    ensures r.Ok? ==> |r.value| == |steps| && forall k :: 0 <= k < |steps| ==> r.value[k] == steps[k].value
    ensures r.Err? ==> exists k ::
      (0 <= k < |steps| && steps[k].Err? && r.error == steps[k].error && forall j :: 0 <= j < k ==> steps[j].Ok?)
  {
    if steps == [] then Ok([])
    else if steps[0].Err? then Err(steps[0].error)
    else
      var rest := Collect(steps[1..]);
      if rest.Err? then
        var k :| (0 <= k < |steps[1..]| && steps[1..][k].Err? && rest.error == steps[1..][k].error
          && forall j :: 0 <= j < k ==> steps[1..][j].Ok?);
        assert steps[k + 1] == steps[1..][k];
        Err(rest.error)
      else Ok([steps[0].value] + rest.value)
  }

  /** A sequence of checks that stops at the first failing one. */
  function FirstFailure(steps: seq<Outcome>): (r: Outcome)
    ensures r.Pass? <==> forall k :: 0 <= k < |steps| ==> steps[k].Pass?
    ensures r.Fail? ==> exists k :: 0 <= k < |steps| && steps[k] == r && forall j :: 0 <= j < k ==> steps[j].Pass?
  {
    if steps == [] then Pass
    else if steps[0].Fail? then steps[0]
    else
      var rest := FirstFailure(steps[1..]);
      if rest.Fail? then
        var k :| 0 <= k < |steps[1..]| && steps[1..][k] == rest && forall j :: 0 <= j < k ==> steps[1..][j].Pass?;
        assert steps[k + 1] == rest;
        rest
      else rest
  }

  function Need(condition: bool, error: Error): (r: Outcome)
    ensures r.Pass? <==> condition
    ensures r.Fail? ==> r.error == error
  {
    if condition then Pass else Fail(error)
  }
}
