/**
 * The fifteen public constructors of `GraphinaError` as a closed catalog, so
 * that statements about all of them at once (which kind each promises, that
 * none yields `NotImplemented`, that no two coincide) can be written and
 * proved. A `Constructor` value is one constructor together with its
 * arguments other than the message.
 */
module Constructors {
  import opened Wrappers
  import Kinds
  import Errors

  datatype Constructor =
    | Pointless
    | AlgorithmError
    | Unfeasible
    | NoPath
    | NoCycle
    | NodeNotFound
    | EdgeNotFound
    | HasACycle
    | Unbounded
    | AmbiguousSolution
    | ExceededMaxIteration
    | PowerIterationFailedConverge(numIterations: Kinds.Usize)
    | EmptyGraph
    | ParseError
    | Other

  /** The kind each constructor is documented to produce, as a table independent of the constructors' bodies. */
  function KindOf(c: Constructor): Kinds.Kind
  {
    match c
    case Pointless => Kinds.PointlessConcept
    case AlgorithmError => Kinds.AlgorithmError
    case Unfeasible => Kinds.Unfeasible
    case NoPath => Kinds.NoPath
    case NoCycle => Kinds.NoCycle
    case NodeNotFound => Kinds.NodeNotFound
    case EdgeNotFound => Kinds.EdgeNotFound
    case HasACycle => Kinds.HasACycle
    case Unbounded => Kinds.Unbounded
    case AmbiguousSolution => Kinds.AmbiguousSolution
    case ExceededMaxIteration => Kinds.ExceededMaxIterations
    case PowerIterationFailedConverge(n) => Kinds.PowerIterationFailedConvergence(n)
    case EmptyGraph => Kinds.EmptyGraph
    case ParseError => Kinds.ParseError
    case Other => Kinds.Other
  }

  /** Calls the constructor `c` with `message`: every constructor tags its own kind and keeps the message. */
  function Apply(c: Constructor, message: string): (e: Errors.GraphinaError)
    ensures e.kind == KindOf(c) && e.message == message
  {
    match c
    case Pointless => Errors.Pointless(message)
    case AlgorithmError => Errors.AlgorithmError(message)
    case Unfeasible => Errors.Unfeasible(message)
    case NoPath => Errors.NoPath(message)
    case NoCycle => Errors.NoCycle(message)
    case NodeNotFound => Errors.NodeNotFound(message)
    case EdgeNotFound => Errors.EdgeNotFound(message)
    case HasACycle => Errors.HasACycle(message)
    case Unbounded => Errors.Unbounded(message)
    case AmbiguousSolution => Errors.AmbiguousSolution(message)
    case ExceededMaxIteration => Errors.ExceededMaxIteration(message)
    case PowerIterationFailedConverge(n) => Errors.PowerIterationFailedConverge(n, message)
    case EmptyGraph => Errors.EmptyGraph(message)
    case ParseError => Errors.ParseError(message)
    case Other => Errors.Other(message)
  }

  /** The constructor for a kind, if the library has one. */
  function ConstructorFor(k: Kinds.Kind): Option<Constructor>
  {
    match k
    case PointlessConcept => Some(Pointless)
    case AlgorithmError => Some(AlgorithmError)
    case Unfeasible => Some(Unfeasible)
    case NoPath => Some(NoPath)
    case NoCycle => Some(NoCycle)
    case NodeNotFound => Some(NodeNotFound)
    case EdgeNotFound => Some(EdgeNotFound)
    case HasACycle => Some(HasACycle)
    case Unbounded => Some(Unbounded)
    case NotImplemented => None
    case AmbiguousSolution => Some(AmbiguousSolution)
    case ExceededMaxIterations => Some(ExceededMaxIteration)
    case PowerIterationFailedConvergence(n) => Some(PowerIterationFailedConverge(n))
    case EmptyGraph => Some(EmptyGraph)
    case ParseError => Some(ParseError)
    case Other => Some(Other)
  }

  /** No constructor ever produces the declared kind `NotImplemented`. */
  lemma NeverNotImplemented(c: Constructor, message: string)
    ensures Apply(c, message).kind != Kinds.NotImplemented
  {
  }

  /** Every kind except `NotImplemented` has exactly one constructor, and that constructor produces it. */
  lemma ConstructorForIsInverse(k: Kinds.Kind, c: Constructor)
    ensures ConstructorFor(k) == Some(c) <==> KindOf(c) == k
    ensures ConstructorFor(k) == None <==> k == Kinds.NotImplemented
  {
  }

  /** A kind can be constructed with a given message exactly when it is not `NotImplemented`. */
  lemma Constructible(k: Kinds.Kind, message: string)
    ensures (exists c :: Apply(c, message) == Errors.GraphinaError(k, message)) <==> k != Kinds.NotImplemented
  {
    if k != Kinds.NotImplemented {
      var c := ConstructorFor(k).value;
      ConstructorForIsInverse(k, c);
      assert Apply(c, message) == Errors.GraphinaError(k, message);
    }
  }

  /** Two constructor calls give the same error only when they are the same constructor with the same arguments. */
  lemma ApplyInjective(c1: Constructor, m1: string, c2: Constructor, m2: string)
    ensures Apply(c1, m1) == Apply(c2, m2) <==> c1 == c2 && m1 == m2
  {
  }
}
