/**
 * The library's single error value, `GraphinaError`, and its public
 * constructors. Each constructor binds one kind to the caller's message; the
 * message is stored as given (Rust's `impl Into<String>` conversion is the
 * identity on text).
 */
module Errors {
  import Kinds

  datatype GraphinaError = GraphinaError(kind: Kinds.Kind, message: string)

  function Pointless(message: string): GraphinaError
  {
    GraphinaError(Kinds.PointlessConcept, message)
  }

  function AlgorithmError(message: string): GraphinaError
  {
    GraphinaError(Kinds.AlgorithmError, message)
  }

  function Unfeasible(message: string): GraphinaError
  {
    GraphinaError(Kinds.Unfeasible, message)
  }

  function NoPath(message: string): GraphinaError
  {
    GraphinaError(Kinds.NoPath, message)
  }

  function NoCycle(message: string): GraphinaError
  {
    GraphinaError(Kinds.NoCycle, message)
  }

  function NodeNotFound(message: string): GraphinaError
  {
    GraphinaError(Kinds.NodeNotFound, message)
  }

  function EdgeNotFound(message: string): GraphinaError
  {
    GraphinaError(Kinds.EdgeNotFound, message)
  }

  function HasACycle(message: string): GraphinaError
  {
    GraphinaError(Kinds.HasACycle, message)
  }

  function Unbounded(message: string): GraphinaError
  {
    GraphinaError(Kinds.Unbounded, message)
  }

  function AmbiguousSolution(message: string): GraphinaError
  {
    GraphinaError(Kinds.AmbiguousSolution, message)
  }

  function ExceededMaxIteration(message: string): GraphinaError
  {
    GraphinaError(Kinds.ExceededMaxIterations, message)
  }

  function PowerIterationFailedConverge(numIterations: Kinds.Usize, message: string): GraphinaError
  {
    GraphinaError(Kinds.PowerIterationFailedConvergence(numIterations), message)
  }

  function EmptyGraph(message: string): GraphinaError
  {
    GraphinaError(Kinds.EmptyGraph, message)
  }

  function ParseError(message: string): GraphinaError
  {
    GraphinaError(Kinds.ParseError, message)
  }

  function Other(message: string): GraphinaError
  {
    GraphinaError(Kinds.Other, message)
  }
}
