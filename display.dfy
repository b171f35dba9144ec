/**
 * `impl Display for GraphinaError`: the error is written the way
 * `Formatter::debug_struct` lays out a struct in non-alternate mode, with the
 * field `kind` before the field `message`:
 *   GraphinaError { kind: <kind as Debug>, message: "<escaped message>" }
 */
module Display {
  import opened Wrappers
  import Text
  import Numerals
  import Kinds
  import Errors
  import DebugStr

  const Open: string := "GraphinaError { kind: "
  const Separator: string := ", message: \""
  const Close: string := "\" }"

  function Render(e: Errors.GraphinaError): string
  {
    Open + Kinds.DebugText(e.kind) + MessageField(e.message)
  }

  /** The second field with the end of the struct: `, message: "<escaped message>" }`. */
  function MessageField(m: string): string
  {
    Separator + DebugStr.EscapeDebug(m) + Close
  }

  /** Reads the escaped message field, `, message: "<body>" }`, back to the message. */
  function ParseMessageField(tail: string): Option<string>
  {
    if |tail| < |Separator| + |Close|
       || tail[..|Separator|] != Separator
       || tail[|tail| - |Close|..] != Close then None
    else DebugStr.Unescape(tail[|Separator|..|tail| - |Close|])
  }

  /** Reads the two fields after the opening: the kind text runs up to the first comma. */
  function ParseFields(rest: string): Option<Errors.GraphinaError>
  {
    match Text.FirstIndex(rest, ',')
    case None => None
    case Some(i) =>
      match Kinds.ParseDebugText(rest[..i])
      case None => None
      case Some(k) =>
        match ParseMessageField(rest[i..])
        case None => None
        case Some(m) => Some(Errors.GraphinaError(k, m))
  }

  /** Inverse of `Render`; see `ParseRenderRoundTrip` and `RenderParsed`. */
  function ParseRender(s: string): Option<Errors.GraphinaError>
  {
    if |s| < |Open| || s[..|Open|] != Open then None else ParseFields(s[|Open|..])
  }

  lemma ParseMessageFieldRoundTrip(m: string)
    ensures ParseMessageField(MessageField(m)) == Some(m)
  {
    var body := DebugStr.EscapeDebug(m);
    var tail := Separator + body + Close;
    assert tail[..|Separator|] == Separator;
    assert tail[|tail| - |Close|..] == Close;
    assert tail[|Separator|..|tail| - |Close|] == body;
    DebugStr.UnescapeEscapeDebug(m);
  }

  lemma ParseMessageFieldSound(tail: string)
    requires ParseMessageField(tail).Some?
    ensures tail == MessageField(ParseMessageField(tail).value)
  {
    var body := tail[|Separator|..|tail| - |Close|];
    DebugStr.EscapeDebugUnescape(body);
    assert tail == tail[..|Separator|] + body + tail[|tail| - |Close|..];
  }

  /** Parsing the rendering of any error gives that error back. */
  lemma ParseRenderRoundTrip(e: Errors.GraphinaError)
    ensures ParseRender(Render(e)) == Some(e)
  {
    var s := Render(e);
    var kt := Kinds.DebugText(e.kind);
    var tail := MessageField(e.message);
    var rest := s[|Open|..];
    assert s[..|Open|] == Open;
    assert rest == kt + tail;
    assert rest == kt + [','] + tail[1..];
    Kinds.DebugTextHasNoComma(e.kind);
    Text.FirstIndexAfter(kt, ',', tail[1..]);
    assert rest[..|kt|] == kt;
    assert rest[|kt|..] == tail;
    Kinds.ParseDebugTextRoundTrip(e.kind);
    ParseMessageFieldRoundTrip(e.message);
  }

  lemma ParseFieldsSound(rest: string)
    requires ParseFields(rest).Some?
    ensures rest == Kinds.DebugText(ParseFields(rest).value.kind) + MessageField(ParseFields(rest).value.message)
  {
    var i := Text.FirstIndex(rest, ',').value;
    var k := Kinds.ParseDebugText(rest[..i]).value;
    var m := ParseMessageField(rest[i..]).value;
    Kinds.ParseDebugTextSound(rest[..i]);
    ParseMessageFieldSound(rest[i..]);
    FieldsJoin(rest, i, k, m);
  }

  lemma FieldsJoin(rest: string, i: nat, k: Kinds.Kind, m: string)
    requires i <= |rest| && Kinds.DebugText(k) == rest[..i] && MessageField(m) == rest[i..]
    ensures rest == Kinds.DebugText(k) + MessageField(m)
  {
    assert rest == rest[..i] + rest[i..];
  }

  /** Any text that parses as an error is exactly that error's rendering. */
  lemma RenderParsed(s: string)
    requires ParseRender(s).Some?
    ensures Render(ParseRender(s).value) == s
  {
    var e := ParseRender(s).value;
    var rest := s[|Open|..];
    ParseFieldsSound(rest);
    calc {
      s;
      s[..|Open|] + rest;
      Open + (Kinds.DebugText(e.kind) + MessageField(e.message));
      Render(e);
    }
  }

  /** Distinct errors render to distinct text: the rendering identifies both kind and message. */
  lemma RenderInjective(a: Errors.GraphinaError, b: Errors.GraphinaError)
    ensures Render(a) == Render(b) <==> a == b
  {
    ParseRenderRoundTrip(a);
    ParseRenderRoundTrip(b);
  }

  /** Errors of different kinds never render alike, whatever their messages. */
  lemma DistinctKindsRenderDistinctly(a: Errors.GraphinaError, b: Errors.GraphinaError)
    requires a.kind != b.kind
    ensures Render(a) != Render(b)
  {
    RenderInjective(a, b);
  }

  /** A message that needs no escaping appears in the rendering exactly as given. */
  lemma RenderVerbatimMessage(e: Errors.GraphinaError)
    requires forall i :: 0 <= i < |e.message| ==> DebugStr.Verbatim(e.message[i])
    ensures Render(e) == Open + Kinds.DebugText(e.kind) + Separator + e.message + Close
  {
    DebugStr.EscapeDebugIdentity(e.message);
  }

  /** A payload-free kind is written as its bare variant name. */
  lemma RenderPlainKind(e: Errors.GraphinaError)
    requires !e.kind.PowerIterationFailedConvergence?
    requires forall i :: 0 <= i < |e.message| ==> DebugStr.Verbatim(e.message[i])
    ensures Render(e) == "GraphinaError { kind: " + Kinds.Name(e.kind) + ", message: \"" + e.message + "\" }"
  {
    DebugStr.EscapeDebugIdentity(e.message);
  }

  lemma PowerIterationLayout(d: string, x: string)
    ensures Open + ("PowerIterationFailedConvergence" + " { num_iterations: " + d + " }") + (", message: \"" + x + "\" }")
         == "GraphinaError { kind: " + "PowerIterationFailedConvergence" + " { num_iterations: "
            + d + " }" + ", message: \"" + x + "\" }"
  {
  }

  /** The convergence failure writes its iteration count, in decimal, inside a nested record. */
  lemma RenderPowerIteration(n: Kinds.Usize, m: string)
    ensures Render(Errors.PowerIterationFailedConverge(n, m))
         == "GraphinaError { kind: " + "PowerIterationFailedConvergence" + " { num_iterations: "
            + Numerals.Decimal(n) + " }" + ", message: \"" + DebugStr.EscapeDebug(m) + "\" }"
  {
    var d := Numerals.Decimal(n);
    var x := DebugStr.EscapeDebug(m);
    var k := Kinds.PowerIterationFailedConvergence(n);
    assert Kinds.DebugText(k) == "PowerIterationFailedConvergence" + " { num_iterations: " + d + " }";
    assert MessageField(m) == ", message: \"" + x + "\" }";
    PowerIterationLayout(d, x);
  }

  // The seven pairs of the library's own unit test, one lemma each, each
  // stating the expected text as the test writes it. The companion lemma
  // builds that literal up piece by piece from the fields of the layout; the
  // companions differ only in the kind and the message, and exist to keep each
  // string comparison small for the solver.

  lemma UnitTestAlgorithmError()
    ensures Render(Errors.AlgorithmError("algorithm error")) == "GraphinaError { kind: AlgorithmError, message: \"algorithm error\" }"
  {
    PlainCase(Errors.AlgorithmError("algorithm error"), "AlgorithmError");
    AlgorithmErrorExpected();
  }

  lemma AlgorithmErrorExpected()
    ensures Open + "AlgorithmError" + ", message: \"" + "algorithm error" + "\" }" == "GraphinaError { kind: AlgorithmError, message: \"algorithm error\" }"
  {
    assert Open + "AlgorithmError" == "GraphinaError { kind: AlgorithmError";
    assert "GraphinaError { kind: AlgorithmError" + ", message: \"" == "GraphinaError { kind: AlgorithmError, message: \"";
    assert "GraphinaError { kind: AlgorithmError, message: \"" + "algorithm error" == "GraphinaError { kind: AlgorithmError, message: \"algorithm error";
  }

  lemma UnitTestNoPath()
    ensures Render(Errors.NoPath("not path found")) == "GraphinaError { kind: NoPath, message: \"not path found\" }"
  {
    PlainCase(Errors.NoPath("not path found"), "NoPath");
    NoPathExpected();
  }

  lemma NoPathExpected()
    ensures Open + "NoPath" + ", message: \"" + "not path found" + "\" }" == "GraphinaError { kind: NoPath, message: \"not path found\" }"
  {
    assert Open + "NoPath" == "GraphinaError { kind: NoPath";
    assert "GraphinaError { kind: NoPath" + ", message: \"" == "GraphinaError { kind: NoPath, message: \"";
    assert "GraphinaError { kind: NoPath, message: \"" + "not path found" == "GraphinaError { kind: NoPath, message: \"not path found";
  }

  lemma UnitTestNoCycle()
    ensures Render(Errors.NoCycle("not cycle found")) == "GraphinaError { kind: NoCycle, message: \"not cycle found\" }"
  {
    PlainCase(Errors.NoCycle("not cycle found"), "NoCycle");
    NoCycleExpected();
  }

  lemma NoCycleExpected()
    ensures Open + "NoCycle" + ", message: \"" + "not cycle found" + "\" }" == "GraphinaError { kind: NoCycle, message: \"not cycle found\" }"
  {
    assert Open + "NoCycle" == "GraphinaError { kind: NoCycle";
    assert "GraphinaError { kind: NoCycle" + ", message: \"" == "GraphinaError { kind: NoCycle, message: \"";
    assert "GraphinaError { kind: NoCycle, message: \"" + "not cycle found" == "GraphinaError { kind: NoCycle, message: \"not cycle found";
  }

  lemma UnitTestNodeNotFound()
    ensures Render(Errors.NodeNotFound("cannot found node")) == "GraphinaError { kind: NodeNotFound, message: \"cannot found node\" }"
  {
    PlainCase(Errors.NodeNotFound("cannot found node"), "NodeNotFound");
    NodeNotFoundExpected();
  }

  lemma NodeNotFoundExpected()
    ensures Open + "NodeNotFound" + ", message: \"" + "cannot found node" + "\" }" == "GraphinaError { kind: NodeNotFound, message: \"cannot found node\" }"
  {
    assert Open + "NodeNotFound" == "GraphinaError { kind: NodeNotFound";
    assert "GraphinaError { kind: NodeNotFound" + ", message: \"" == "GraphinaError { kind: NodeNotFound, message: \"";
    assert "GraphinaError { kind: NodeNotFound, message: \"" + "cannot found node" == "GraphinaError { kind: NodeNotFound, message: \"cannot found node";
  }

  lemma UnitTestEdgeNotFound()
    ensures Render(Errors.EdgeNotFound("cannot found edge")) == "GraphinaError { kind: EdgeNotFound, message: \"cannot found edge\" }"
  {
    PlainCase(Errors.EdgeNotFound("cannot found edge"), "EdgeNotFound");
    EdgeNotFoundExpected();
  }

  lemma EdgeNotFoundExpected()
    ensures Open + "EdgeNotFound" + ", message: \"" + "cannot found edge" + "\" }" == "GraphinaError { kind: EdgeNotFound, message: \"cannot found edge\" }"
  {
    assert Open + "EdgeNotFound" == "GraphinaError { kind: EdgeNotFound";
    assert "GraphinaError { kind: EdgeNotFound" + ", message: \"" == "GraphinaError { kind: EdgeNotFound, message: \"";
    assert "GraphinaError { kind: EdgeNotFound, message: \"" + "cannot found edge" == "GraphinaError { kind: EdgeNotFound, message: \"cannot found edge";
  }

  lemma UnitTestEmptyGraph()
    ensures Render(Errors.EmptyGraph("graph is empty")) == "GraphinaError { kind: EmptyGraph, message: \"graph is empty\" }"
  {
    PlainCase(Errors.EmptyGraph("graph is empty"), "EmptyGraph");
    EmptyGraphExpected();
  }

  lemma EmptyGraphExpected()
    ensures Open + "EmptyGraph" + ", message: \"" + "graph is empty" + "\" }" == "GraphinaError { kind: EmptyGraph, message: \"graph is empty\" }"
  {
    assert Open + "EmptyGraph" == "GraphinaError { kind: EmptyGraph";
    assert "GraphinaError { kind: EmptyGraph" + ", message: \"" == "GraphinaError { kind: EmptyGraph, message: \"";
    assert "GraphinaError { kind: EmptyGraph, message: \"" + "graph is empty" == "GraphinaError { kind: EmptyGraph, message: \"graph is empty";
  }

  lemma UnitTestOther()
    ensures Render(Errors.Other("a generic error")) == "GraphinaError { kind: Other, message: \"a generic error\" }"
  {
    PlainCase(Errors.Other("a generic error"), "Other");
    OtherExpected();
  }

  lemma OtherExpected()
    ensures Open + "Other" + ", message: \"" + "a generic error" + "\" }" == "GraphinaError { kind: Other, message: \"a generic error\" }"
  {
    assert Open + "Other" == "GraphinaError { kind: Other";
    assert "GraphinaError { kind: Other" + ", message: \"" == "GraphinaError { kind: Other, message: \"";
    assert "GraphinaError { kind: Other, message: \"" + "a generic error" == "GraphinaError { kind: Other, message: \"a generic error";
  }

  /** One test case: a payload-free kind named `name` and a message of letters, spaces and full stops. */
  lemma PlainCase(e: Errors.GraphinaError, name: string)
    requires !e.kind.PowerIterationFailedConvergence? && Kinds.Name(e.kind) == name
    requires forall i :: 0 <= i < |e.message| ==> 'a' <= e.message[i] <= 'z' || 'A' <= e.message[i] <= 'Z' || e.message[i] in " ."
    ensures Render(e) == Open + name + ", message: \"" + e.message + "\" }"
  {
    RenderPlainKind(e);
  }

  /** A convergence failure after 100 iterations, written out in full. */
  lemma PowerIterationExample()
    ensures Render(Errors.PowerIterationFailedConverge(100, "did not converge"))
         == Open + "PowerIterationFailedConvergence" + " { num_iterations: " + "100" + " }"
            + ", message: \"" + "did not converge" + "\" }"
  {
    HundredInDecimal();
    PayloadCase(100, "did not converge", "100");
  }

  lemma HundredInDecimal()
    ensures Numerals.Decimal(100) == "100"
  {
    assert Numerals.Decimal(10) == "1" + "0";
  }

  /** One convergence failure whose count is written `d` and whose message holds letters, spaces and full stops. */
  lemma PayloadCase(n: Kinds.Usize, m: string, d: string)
    requires Numerals.Decimal(n) == d
    requires forall i :: 0 <= i < |m| ==> 'a' <= m[i] <= 'z' || 'A' <= m[i] <= 'Z' || m[i] in " ."
    ensures Render(Errors.PowerIterationFailedConverge(n, m))
         == Open + "PowerIterationFailedConvergence" + " { num_iterations: " + d + " }"
            + ", message: \"" + m + "\" }"
  {
    DebugStr.EscapeDebugIdentity(m);
    RenderPowerIteration(n, m);
  }

  /**
   * The example in the module documentation builds `other("A generic error occurred.")`;
   * it renders with that message, not with the "a generic error" its comment shows.
   */
  lemma ModuleDocExample()
    ensures Render(Errors.Other("A generic error occurred."))
         == Open + "Other" + ", message: \"" + "A generic error occurred." + "\" }"
    ensures Render(Errors.Other("A generic error occurred.")) != Render(Errors.Other("a generic error"))
  {
    var e := Errors.Other("A generic error occurred.");
    assert Render(e) == Open + "Other" + ", message: \"" + "A generic error occurred." + "\" }" by {
      PlainCase(e, "Other");
    }
    assert e != Errors.Other("a generic error");
    RenderInjective(e, Errors.Other("a generic error"));
  }
}
