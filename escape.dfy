/**
 * How Rust's `Debug` for `str` writes a message between double quotes, for
 * ASCII text: `"` and `\` get a backslash; NUL, tab, carriage return and line
 * feed get `\0`, `\t`, `\r`, `\n`; every other ASCII control character
 * (below 0x20, and 0x7f) becomes `\u{h}` with the code in lower-case hex
 * without leading zeros; everything else is written as it is. A single quote
 * is not escaped inside a string. Characters above ASCII are passed through.
 */
module DebugStr {
  import opened Wrappers
  import Numerals
  import Text

  predicate IsAsciiControl(c: char)
  {
    c < ' ' || c as int == 0x7f
  }

  /** The characters written as they are. */
  predicate Verbatim(c: char)
  {
    c != '"' && c != '\\' && !IsAsciiControl(c)
  }

  /** The control characters written as `\u{...}`. */
  predicate UnicodeEscaped(c: char)
  {
    IsAsciiControl(c) && c != '\0' && c != '\t' && c != '\r' && c != '\n'
  }

  function EscapeChar(c: char): (s: string)
  {
    if c == '\0' then "\\0"
    else if c == '\t' then "\\t"
    else if c == '\r' then "\\r"
    else if c == '\n' then "\\n"
    else if c == '\\' then "\\\\"
    else if c == '"' then "\\\""
    else if IsAsciiControl(c) then "\\u{" + Numerals.LowerHex(c as nat) + "}"
    else [c]
  }

  /** The escaped body of a message; escaping never shortens it. */
  function EscapeDebug(m: string): (s: string)
    ensures |s| >= |m|
  {
    if m == [] then [] else EscapeChar(m[0]) + EscapeDebug(m[1..])
  }

  /** A message comes out unchanged exactly when none of its characters needs an escape. */
  lemma {:induction false} EscapeDebugIdentity(m: string)
    ensures EscapeDebug(m) == m <==> forall i :: 0 <= i < |m| ==> Verbatim(m[i])
    decreases |m|
  {
    if m != [] {
      EscapeDebugIdentity(m[1..]);
      if Verbatim(m[0]) {
        assert EscapeDebug(m) == [m[0]] + EscapeDebug(m[1..]);
        if EscapeDebug(m) == m {
          assert EscapeDebug(m[1..]) == m[1..];
        }
        assert (forall i :: 0 <= i < |m| ==> Verbatim(m[i])) <==> (forall i :: 0 <= i < |m[1..]| ==> Verbatim(m[1..][i]));
      } else {
        assert |EscapeChar(m[0])| >= 2;
      }
    }
  }

  /** Escaping works character by character: the body of a concatenation is the concatenation of the bodies. */
  lemma {:induction false} EscapeDebugAppend(a: string, b: string)
    ensures EscapeDebug(a + b) == EscapeDebug(a) + EscapeDebug(b)
    decreases |a|
  {
    if a != [] {
      assert (a + b)[0] == a[0];
      assert (a + b)[1..] == a[1..] + b;
      EscapeDebugAppend(a[1..], b);
    } else {
      assert a + b == b;
    }
  }

  lemma EscapeDebugInsert(a: string, c: char, b: string)
    ensures EscapeDebug(a + [c] + b) == EscapeDebug(a) + EscapeChar(c) + EscapeDebug(b)
  {
    EscapeDebugAppend(a + [c], b);
    EscapeDebugAppend(a, [c]);
    assert [c][1..] == [];
    assert EscapeDebug([c]) == EscapeChar(c);
  }

  /** A `"` or a `\` inside a message is written with a backslash before it. */
  lemma EscapesQuoteAndBackslash(a: string, b: string)
    ensures EscapeDebug(a + ['"'] + b) == EscapeDebug(a) + ['\\', '"'] + EscapeDebug(b)
    ensures EscapeDebug(a + ['\\'] + b) == EscapeDebug(a) + ['\\', '\\'] + EscapeDebug(b)
  {
    EscapeDebugInsert(a, '"', b);
    EscapeDebugInsert(a, '\\', b);
  }

  /** Reads one escaped character at the front of `s`, with the number of characters it took. */
  function UnescapeOne(s: string): Option<(char, nat)>
  {
    if |s| == 0 then None
    else if s[0] != '\\' then (if Verbatim(s[0]) then Some((s[0], 1)) else None)
    else if |s| < 2 then None
    else if s[1] == '0' then Some(('\0', 2))
    else if s[1] == 't' then Some(('\t', 2))
    else if s[1] == 'r' then Some(('\r', 2))
    else if s[1] == 'n' then Some(('\n', 2))
    else if s[1] == '\\' then Some(('\\', 2))
    else if s[1] == '"' then Some(('"', 2))
    else if s[1] == 'u' && |s| >= 3 && s[2] == '{' then
      match Text.FirstIndex(s[3..], '}')
      case None => None
      case Some(j) =>
        match Numerals.ParseNumeral(s[3..3 + j], 16)
        case None => None
        case Some(v) => if v < 0x80 && UnicodeEscaped(v as char) then Some((v as char, 4 + j)) else None
    else None
  }

  /** The inverse of `EscapeDebug`: `None` for text that `EscapeDebug` never produces. */
  function Unescape(s: string): Option<string>
    decreases |s|
  {
    if s == [] then Some([])
    else match UnescapeOne(s)
      case None => None
      case Some((c, k)) =>
        if 1 <= k <= |s| then
          match Unescape(s[k..])
          case None => None
          case Some(t) => Some([c] + t)
        else None
  }

  lemma UnescapeOneEscapeChar(c: char, rest: string)
    ensures UnescapeOne(EscapeChar(c) + rest) == Some((c, |EscapeChar(c)|))
  {
    var s := EscapeChar(c) + rest;
    if UnicodeEscaped(c) {
      UnescapeOneUnicode(c, rest);
    } else if Verbatim(c) {
      assert s[0] == c;
    } else {
      assert s[..2] == EscapeChar(c);
    }
  }

  lemma UnescapeOneUnicode(c: char, rest: string)
    requires UnicodeEscaped(c)
    ensures UnescapeOne(EscapeChar(c) + rest) == Some((c, |EscapeChar(c)|))
  {
    var h := Numerals.LowerHex(c as nat);
    assert EscapeChar(c) == "\\u{" + h + "}";
    assert '}' !in h by {
      assert forall i :: 0 <= i < |h| ==> Numerals.IsDigit(h[i], 16);
    }
    Numerals.ParseDigits(c as nat, 16);
    UnescapeOneBraced(h, rest, c as nat);
  }

  /** Reading `\u{h}` where `h` is a hex numeral naming a control character. */
  lemma UnescapeOneBraced(h: string, rest: string, v: nat)
    requires '}' !in h && Numerals.ParseNumeral(h, 16) == Some(v) && v < 0x80 && UnicodeEscaped(v as char)
    ensures UnescapeOne("\\u{" + h + "}" + rest) == Some((v as char, 4 + |h|))
  {
    var s := "\\u{" + h + "}" + rest;
    assert s[0] == '\\' && s[1] == 'u' && s[2] == '{';
    assert s[3..] == h + ['}'] + rest;
    Text.FirstIndexAfter(h, '}', rest);
    assert s[3..3 + |h|] == h;
  }

  lemma UnescapeOneSound(s: string)
    requires UnescapeOne(s).Some?
    ensures 1 <= UnescapeOne(s).value.1 <= |s|
    ensures s[..UnescapeOne(s).value.1] == EscapeChar(UnescapeOne(s).value.0)
  {
    var (c, k) := UnescapeOne(s).value;
    if s[0] == '\\' && s[1] == 'u' {
      var j := Text.FirstIndex(s[3..], '}').value;
      var h := s[3..3 + j];
      Numerals.PrintParsed(h, 16);
      assert s[..k] == "\\u{" + h + "}";
    } else if s[0] == '\\' {
      assert s[..2] == ['\\', s[1]];
    } else {
      assert s[..1] == [s[0]];
    }
  }

  /** Unescaping the escaped body of any message gives the message back. */
  lemma {:induction false} UnescapeEscapeDebug(m: string)
    ensures Unescape(EscapeDebug(m)) == Some(m)
    decreases |m|
  {
    if m != [] {
      var s := EscapeDebug(m);
      var e := EscapeChar(m[0]);
      UnescapeOneEscapeChar(m[0], EscapeDebug(m[1..]));
      assert s[|e|..] == EscapeDebug(m[1..]);
      UnescapeEscapeDebug(m[1..]);
      assert [m[0]] + m[1..] == m;
    }
  }

  /** Any text that unescapes to a message is exactly that message's escaped body. */
  lemma {:induction false} EscapeDebugUnescape(s: string)
    requires Unescape(s).Some?
    ensures EscapeDebug(Unescape(s).value) == s
    decreases |s|
  {
    if s != [] {
      UnescapeStep(s);
      var (c, k) := UnescapeOne(s).value;
      UnescapeOneSound(s);
      EscapeDebugUnescape(s[k..]);
      EscapeJoin(s, k, c, Unescape(s[k..]).value);
    }
  }

  lemma EscapeJoin(s: string, k: nat, c: char, t: string)
    requires 1 <= k <= |s| && s[..k] == EscapeChar(c) && EscapeDebug(t) == s[k..]
    ensures EscapeDebug([c] + t) == s
  {
    EscapeDebugCons(c, t);
    assert s == s[..k] + s[k..];
  }

  /** How a successful `Unescape` of non-empty text splits into its first character and the rest. */
  lemma UnescapeStep(s: string)
    requires s != [] && Unescape(s).Some?
    ensures UnescapeOne(s).Some? && 1 <= UnescapeOne(s).value.1 <= |s|
    ensures Unescape(s[UnescapeOne(s).value.1..]).Some?
    ensures Unescape(s).value == [UnescapeOne(s).value.0] + Unescape(s[UnescapeOne(s).value.1..]).value
  {
  }

  lemma EscapeDebugCons(c: char, t: string)
    ensures EscapeDebug([c] + t) == EscapeChar(c) + EscapeDebug(t)
  {
    var m := [c] + t;
    assert m[0] == c && m[1..] == t;
  }

  lemma EscapeCharQuote(c: char, i: nat)
    requires i < |EscapeChar(c)| && EscapeChar(c)[i] == '"'
    ensures i == 1 && EscapeChar(c)[0] == '\\'
  {
  }

  /** In an escaped body every `"` follows a backslash, so an unescaped `"` cannot occur in it. */
  lemma {:induction false} QuotesFollowBackslash(m: string, i: nat)
    requires i < |EscapeDebug(m)| && EscapeDebug(m)[i] == '"'
    ensures i > 0 && EscapeDebug(m)[i - 1] == '\\'
    decreases |m|
  {
    var e := EscapeChar(m[0]);
    var s := EscapeDebug(m);
    assert s == e + EscapeDebug(m[1..]);
    if i < |e| {
      EscapeCharQuote(m[0], i);
    } else {
      QuotesFollowBackslash(m[1..], i - |e|);
      if i - |e| > 0 {
        assert s[i - 1] == EscapeDebug(m[1..])[i - |e| - 1];
      }
    }
  }
}
