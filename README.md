# Graphina error taxonomy in Dafny

A model of the error values of the Graphina graph library (`src/core/error.rs`):

- `GraphinaErrorKind`, the closed set of sixteen failure categories. Only
  `PowerIterationFailedConvergence` carries data, an iteration count of type
  `usize`. `NotImplemented` is declared but no constructor produces it.
- `GraphinaError`, a kind paired with a free-form message, and its fifteen
  constructors (`pointless` … `other`, `power_iteration_failed_converge`).
- The `Display` implementation. It lays the error out the way
  `Formatter::debug_struct` does in non-alternate mode:
  `GraphinaError { kind: <kind as Debug>, message: "<escaped message>" }`.

Modules, one per file:

| file | module | contents |
|---|---|---|
| `wrappers.dfy` | `Wrappers` | `Option` |
| `text.dfy` | `Text` | first occurrence of a character |
| `numerals.dfy` | `Numerals` | decimal and lower-case hex numerals, with the parser that inverts them |
| `kind.dfy` | `Kinds` | the kind enum, its derived `Debug` text, and a reader for that text |
| `error.dfy` | `Errors` | the error value and the fifteen constructor functions |
| `constructors.dfy` | `Constructors` | the constructors as one catalog, so statements about all of them can be proved at once |
| `escape.dfy` | `DebugStr` | how `Debug` for `str` escapes a message (ASCII), with its inverse |
| `display.dfy` | `Display` | the rendering, its inverse, and the unit-test cases |

Every operation is paired with an inverse or an independent table:

- The rendering is paired with a parser, `Display.ParseRender`. The two are
  proved to be inverse in both directions. Injectivity of the rendering
  follows from that.
- Message escaping is paired with `DebugStr.Unescape`.
- The kind text is paired with `Kinds.ParseDebugText`.
- Decimal printing is paired with `Numerals.ParseNumeral`.
- The constructor functions in `Errors` have no contracts of their own. Which
  kind each one tags, and that each keeps the message, is stated once for all
  fifteen by `Constructors.Apply`. That contract is checked against
  `Constructors.KindOf`, a table kept separate from the constructors' bodies.

For the message, the model follows Rust's `Debug` rules for ASCII text.
This covers more than the backslash before `"` and `\`:

- NUL, tab, carriage return and line feed become `\0`, `\t`, `\r` and `\n`.
- Every other ASCII control character becomes `\u{..}`, in lower-case hex.
- A single quote is not escaped.

## Model

| member | source | states |
|---|---|---|
| Display.Render | src/core/error.rs:29-35 | the `Display` text: the struct name, then `kind` and `message` in that order in the `debug_struct` layout. It has no contract of its own; its properties are the lemmas below, chiefly `ParseRenderRoundTrip` and `RenderParsed` (nothing is lost) and `RenderInjective` |
| Kinds.Name | src/core/error.rs:137-201 | the variant identifier derived `Debug` writes for each kind. It has no contract of its own; `NamesDistinct` proves the sixteen identifiers pairwise distinct |
| Kinds.DebugText | src/core/error.rs:136-202 | the derived `Debug` text of a kind, with the count nested for the convergence failure. It has no contract of its own; `ParseDebugTextRoundTrip`, `ParseDebugTextSound` and `DebugTextInjective` carry its properties |
| DebugStr.EscapeDebug | src/core/error.rs:33 | the body of `str`'s `Debug` text for a message (ASCII rules); escaping never shortens the message. `UnescapeEscapeDebug` and `EscapeDebugUnescape` prove it invertible, `EscapeDebugIdentity` says when it changes nothing |
| Constructors.Apply | src/core/error.rs:40-134 | every constructor returns an error whose kind is the one it is named for (with the iteration count kept exactly for the convergence failure), and whose message is the caller's message unchanged |
| Constructors.NeverNotImplemented | src/core/error.rs:177 | no constructor, with any message, produces the declared kind `NotImplemented` |
| Constructors.ConstructorForIsInverse | src/core/error.rs:40-134 | each kind other than `NotImplemented` has exactly one constructor producing it; `NotImplemented` has none |
| Constructors.Constructible | src/core/error.rs:136-202 | an error of kind k with message m can be built by some constructor if and only if k is not `NotImplemented` |
| Constructors.ApplyInjective | src/core/error.rs:40-134 | two constructor calls give the same error exactly when they are the same constructor with the same count and message |
| Kinds.NamesDistinct | src/core/error.rs:136-202 | two kinds share a variant identifier exactly when they are the same variant (any two convergence failures share one) |
| Kinds.DebugTextHasNoComma | src/core/error.rs:136-202 | the derived `Debug` text of a kind never contains a comma |
| Kinds.ParseDebugTextRoundTrip | src/core/error.rs:136-202 | reading back the `Debug` text of any kind, count included, gives that kind |
| Kinds.ParseDebugTextSound | src/core/error.rs:189 | any text that reads back as a kind is exactly that kind's `Debug` text, so the count is written in canonical decimal |
| Kinds.DebugTextInjective | src/core/error.rs:136-202 | two kinds have the same `Debug` text if and only if they are equal, so different counts print differently |
| Numerals.Digits | src/core/error.rs:189 | a printed count is non-empty, all digits, and starts with `0` only when it is zero itself (and is then that one digit) |
| Numerals.ParseDigits | src/core/error.rs:189 | reading a printed number gives the number back |
| Numerals.PrintParsed | src/core/error.rs:189 | any text that reads as a number is exactly how that number is printed |
| DebugStr.EscapeDebugIdentity | src/core/error.rs:33 | a message is written unchanged if and only if none of its characters needs escaping |
| DebugStr.EscapeDebugAppend | src/core/error.rs:33 | escaping is character by character: escaping a concatenation gives the concatenation of the escaped parts |
| DebugStr.EscapesQuoteAndBackslash | src/core/error.rs:33 | a `"` or a `\` anywhere in a message is written with a backslash before it, and the rest of the message is escaped unaffected |
| DebugStr.UnescapeEscapeDebug | src/core/error.rs:33 | unescaping an escaped message gives the message back, so escaping loses nothing |
| DebugStr.EscapeDebugUnescape | src/core/error.rs:33 | any text that unescapes to a message is exactly that message's escaped form |
| DebugStr.QuotesFollowBackslash | src/core/error.rs:33 | every `"` in an escaped message follows a backslash, so the closing quote of the field is unambiguous |
| Display.ParseRenderRoundTrip | src/core/error.rs:29-35 | parsing the rendering of any error gives back its kind and message |
| Display.RenderParsed | src/core/error.rs:29-35 | any text that parses as an error is exactly that error's rendering |
| Display.RenderInjective | src/core/error.rs:29-35 | two errors render to the same text if and only if they have the same kind and the same message |
| Display.DistinctKindsRenderDistinctly | src/core/error.rs:29-35 | errors of different kinds never render alike, whatever their messages |
| Display.RenderVerbatimMessage | src/core/error.rs:29-35 | for a message that needs no escaping, the rendering is the opening, the kind text, `, message: "`, the message and `" }`, with kind before message |
| Display.RenderPlainKind | src/core/error.rs:29-35 | a payload-free kind is written as its bare variant identifier |
| Display.RenderPowerIteration | src/core/error.rs:32 | the convergence failure writes its kind nested as `PowerIterationFailedConvergence { num_iterations: N }`, with N in decimal |
| Display.PowerIterationExample | src/core/error.rs:107-115 | `power_iteration_failed_converge(100, "did not converge")` renders with `num_iterations: 100` and the message verbatim |
| Display.UnitTestAlgorithmError | src/core/error.rs:211-214 | `algorithm_error("algorithm error")` renders as the unit test expects |
| Display.UnitTestNoPath | src/core/error.rs:215-218 | `no_path("not path found")` renders as the unit test expects |
| Display.UnitTestNoCycle | src/core/error.rs:219-222 | `no_cycle("not cycle found")` renders as the unit test expects |
| Display.UnitTestNodeNotFound | src/core/error.rs:223-226 | `node_not_found("cannot found node")` renders as the unit test expects |
| Display.UnitTestEdgeNotFound | src/core/error.rs:227-230 | `edge_not_found("cannot found edge")` renders as the unit test expects |
| Display.UnitTestEmptyGraph | src/core/error.rs:231-234 | `empty_graph("graph is empty")` renders as the unit test expects |
| Display.UnitTestOther | src/core/error.rs:235-238 | `other("a generic error")` renders as the unit test expects |
| Display.ModuleDocExample | src/core/error.rs:11-17 | `other("A generic error occurred.")` renders with that message, which differs from the output the module documentation shows |

## Left out

- DebugStr.EscapeDebug: characters above ASCII are passed through unchanged. Rust also escapes non-printable and grapheme-extending Unicode characters, and decides which ones with std's Unicode tables, which are not part of this model.
- Display.Render: only a plain `{}` is modelled. Any other format spec is left out: the alternate `#` flag (the multi-line pretty layout), and width, fill, alignment, sign and zero-padding. `fmt` hands its formatter to each field, so those flags reach the `num_iterations` count, which `usize`'s `Display` pads or signs (`{:5}` writes `    3`, `{:+}` writes `+3`); the variant identifiers and the quoted message ignore them. The unit tests use only `{}`.
- The `Formatter` and `DebugStruct` builder API and its `fmt::Result` error propagation are left out. The model gives the string they produce.
- The derived `Debug` of `GraphinaError` (src/core/error.rs:23) prints the same layout as `Display`. It is not modelled separately.
- `impl Error for GraphinaError`, the derived `Clone`, and `Send`/`Sync` are left out. They are trait plumbing with no behaviour to state.
- `usize` is taken to be 64 bits wide (`Kinds.Usize`). Other target widths are not modelled.
- `impl Into<String>` on the constructors is taken to be the identity on text. Conversions from other types are not modelled.
- The module documentation's example (src/core/error.rs:11-17) imports a module path that does not exist. Its comment also shows a message other than the one it builds. It is used only by `Display.ModuleDocExample`, to state what the rendering actually is.
- `src/core/mod.rs` only declares submodules, and the algorithm modules it names are not part of this model.
