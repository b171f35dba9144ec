/**
 * The closed set of failure categories (`GraphinaErrorKind`) and the text
 * Rust's derived `Debug` gives each of them.
 */
module Kinds {
  import opened Wrappers
  import Numerals

  /** The range of Rust's `usize` on a 64-bit target. */
  const UsizeLimit: nat := 0x1_0000_0000_0000_0000

  type Usize = n: nat | n < UsizeLimit

  datatype Kind =
    | PointlessConcept
    | AlgorithmError
    | Unfeasible
    | NoPath
    | NoCycle
    | NodeNotFound
    | EdgeNotFound
    | HasACycle
    | Unbounded
    | NotImplemented
    | AmbiguousSolution
    | ExceededMaxIterations
    | PowerIterationFailedConvergence(numIterations: Usize)
    | EmptyGraph
    | ParseError
    | Other

  /** The variant identifier, which derived `Debug` prints for a variant without fields. */
  function Name(k: Kind): string
  {
    match k
    case PointlessConcept => "PointlessConcept"
    case AlgorithmError => "AlgorithmError"
    case Unfeasible => "Unfeasible"
    case NoPath => "NoPath"
    case NoCycle => "NoCycle"
    case NodeNotFound => "NodeNotFound"
    case EdgeNotFound => "EdgeNotFound"
    case HasACycle => "HasACycle"
    case Unbounded => "Unbounded"
    case NotImplemented => "NotImplemented"
    case AmbiguousSolution => "AmbiguousSolution"
    case ExceededMaxIterations => "ExceededMaxIterations"
    case PowerIterationFailedConvergence(_) => "PowerIterationFailedConvergence"
    case EmptyGraph => "EmptyGraph"
    case ParseError => "ParseError"
    case Other => "Other"
  }

  /** What derived `Debug` prints before and after the payload of the struct-like variant. */
  const PayloadOpen: string := "PowerIterationFailedConvergence" + " { num_iterations: "
  const PayloadClose: string := " }"

  /** The kind as derived `Debug` prints it (non-alternate form). */
  function DebugText(k: Kind): string
  {
    if k.PowerIterationFailedConvergence? then
      PayloadOpen + Numerals.Decimal(k.numIterations) + PayloadClose
    else
      Name(k)
  }

  /**
   * The only variant without fields whose identifier could be `s`: no two of
   * the fifteen identifiers agree in both length and first letter. A lookup
   * aid for `ParseDebugText`, with no counterpart in the source.
   */
  function Candidate(s: string): Option<Kind>
  {
    if s == [] then None
    else
      var n, c := |s|, s[0];
      if n == 16 && c == 'P' then Some(PointlessConcept)
      else if n == 14 && c == 'A' then Some(AlgorithmError)
      else if n == 10 && c == 'U' then Some(Unfeasible)
      else if n == 6 && c == 'N' then Some(NoPath)
      else if n == 7 && c == 'N' then Some(NoCycle)
      else if n == 12 && c == 'N' then Some(NodeNotFound)
      else if n == 12 && c == 'E' then Some(EdgeNotFound)
      else if n == 9 && c == 'H' then Some(HasACycle)
      else if n == 9 && c == 'U' then Some(Unbounded)
      else if n == 14 && c == 'N' then Some(NotImplemented)
      else if n == 17 && c == 'A' then Some(AmbiguousSolution)
      else if n == 21 && c == 'E' then Some(ExceededMaxIterations)
      else if n == 10 && c == 'E' then Some(EmptyGraph)
      else if n == 10 && c == 'P' then Some(ParseError)
      else if n == 5 && c == 'O' then Some(Other)
      else None
  }

  /** Inverse of `DebugText`; see `ParseDebugTextRoundTrip` and `ParseDebugTextSound`. */
  function ParseDebugText(s: string): Option<Kind>
  {
    match Candidate(s)
    case Some(k) => if Name(k) == s then Some(k) else None
    case None =>
      if |s| >= |PayloadOpen| + |PayloadClose|
         && s[..|PayloadOpen|] == PayloadOpen
         && s[|s| - |PayloadClose|..] == PayloadClose then
        match Numerals.ParseNumeral(s[|PayloadOpen|..|s| - |PayloadClose|], 10)
        case Some(n) => if n < UsizeLimit then Some(PowerIterationFailedConvergence(n)) else None
        case None => None
      else None
  }

  /** Two kinds share a variant identifier exactly when they are the same variant. */
  lemma NamesDistinct(a: Kind, b: Kind)
    ensures Name(a) == Name(b) <==> (a == b || (a.PowerIterationFailedConvergence? && b.PowerIterationFailedConvergence?))
  {
    if !a.PowerIterationFailedConvergence? {
      CandidateOfName(a);
    }
    if !b.PowerIterationFailedConvergence? {
      CandidateOfName(b);
    }
  }

  /** The `Debug` text of a kind never holds a comma, so it ends where the next field begins. */
  lemma DebugTextHasNoComma(k: Kind)
    ensures ',' !in DebugText(k)
  {
    if k.PowerIterationFailedConvergence? {
      var d := Numerals.Decimal(k.numIterations);
      assert ',' !in d by {
        assert forall i :: 0 <= i < |d| ==> Numerals.IsDigit(d[i], 10);
      }
      assert ',' !in PayloadOpen by {
        NoCommaD();
        assert ',' !in " { num_iterations: ";
      }
      assert DebugText(k) == PayloadOpen + d + PayloadClose;
    } else {
      NameHasNoComma(k);
    }
  }

  lemma NameHasNoComma(k: Kind)
    ensures ',' !in Name(k)
  {
    match k
    case PointlessConcept => NoCommaA();
    case AlgorithmError => NoCommaA();
    case Unfeasible => NoCommaA();
    case NoPath => NoCommaA();
    case NoCycle => NoCommaB();
    case NodeNotFound => NoCommaB();
    case EdgeNotFound => NoCommaB();
    case HasACycle => NoCommaB();
    case Unbounded => NoCommaC();
    case NotImplemented => NoCommaC();
    case AmbiguousSolution => NoCommaC();
    case ExceededMaxIterations => NoCommaC();
    case PowerIterationFailedConvergence(_) => NoCommaD();
    case EmptyGraph => NoCommaD();
    case ParseError => NoCommaD();
    case Other => NoCommaD();
  }

  // The variant identifiers in four groups, so that each membership fact stays
  // small for the solver; the grouping has no counterpart in the source.
  lemma NoCommaA()
    ensures ',' !in "PointlessConcept" && ',' !in "AlgorithmError" && ',' !in "Unfeasible" && ',' !in "NoPath"
  {
  }

  lemma NoCommaB()
    ensures ',' !in "NoCycle" && ',' !in "NodeNotFound" && ',' !in "EdgeNotFound" && ',' !in "HasACycle"
  {
  }

  lemma NoCommaC()
    ensures ',' !in "Unbounded" && ',' !in "NotImplemented" && ',' !in "AmbiguousSolution" && ',' !in "ExceededMaxIterations"
  {
  }

  lemma NoCommaD()
    ensures ',' !in "Power" + "Iteration" + "Failed" + "Convergence"
    ensures ',' !in "EmptyGraph" && ',' !in "ParseError" && ',' !in "Other"
  {
  }

  /** Each variant without fields is the candidate for its own identifier. */
  lemma CandidateOfName(k: Kind)
    requires !k.PowerIterationFailedConvergence?
    ensures Candidate(Name(k)) == Some(k)
  {
  }

  /** Reading back the `Debug` text of any kind gives that kind. */
  lemma {:induction false} ParseDebugTextRoundTrip(k: Kind)
    ensures ParseDebugText(DebugText(k)) == Some(k)
  {
    if !k.PowerIterationFailedConvergence? {
      CandidateOfName(k);
    } else {
      var d := Numerals.Decimal(k.numIterations);
      var s := DebugText(k);
      assert s[..|PayloadOpen|] == PayloadOpen;
      assert s[|s| - |PayloadClose|..] == PayloadClose;
      assert s[|PayloadOpen|..|s| - |PayloadClose|] == d;
      Numerals.ParseDigits(k.numIterations, 10);
    }
  }

  /** Any text that reads back as a kind is exactly that kind's `Debug` text. */
  lemma ParseDebugTextSound(s: string)
    requires ParseDebugText(s).Some?
    ensures DebugText(ParseDebugText(s).value) == s
  {
    var k := ParseDebugText(s).value;
    if k.PowerIterationFailedConvergence? {
      var mid := s[|PayloadOpen|..|s| - |PayloadClose|];
      Numerals.PrintParsed(mid, 10);
      assert s == s[..|PayloadOpen|] + mid + s[|s| - |PayloadClose|..];
    }
  }

  /** Distinct kinds, payload included, have distinct `Debug` texts. */
  lemma DebugTextInjective(a: Kind, b: Kind)
    ensures DebugText(a) == DebugText(b) <==> a == b
  {
    ParseDebugTextRoundTrip(a);
    ParseDebugTextRoundTrip(b);
  }
}
