/** The i18n generator: writing text as a Rust string literal. */
module Literals {
  import opened Prelude

  function EscapedChar(c: char): string
  {
    match c
    case '\\' => "\\\\"
    case '"' => "\\\""
    case '\n' => "\\n"
    case '\r' => "\\r"
    case '\t' => "\\t"
    case _ => [c]
  }

  function Escaped(s: string): string { if s == "" then "" else EscapedChar(s[0]) + Escaped(s[1..]) }

  method EscapeRustString(s: string) returns (out: string)
    ensures out == Escaped(s)
  {
    out := "";
    for i := 0 to |s|
      invariant out + Escaped(s[i..]) == Escaped(s)
    {
      EscapedFrom(s, i);
      Associate(out, EscapedChar(s[i]), Escaped(s[i + 1..]));
      out := out + EscapedChar(s[i]);
    }
  }

  lemma EscapedFrom(s: string, i: nat)
    requires i < |s|
    ensures Escaped(s[i..]) == EscapedChar(s[i]) + Escaped(s[i + 1..])
  {
    assert s[i..][1..] == s[i + 1..];
  }

  /** The Rust lexer inside a string literal, up to the closing quote: the value and what
      follows. A bare carriage return, an unknown escape or no closing quote is an error. */
  function Lex(source: string): Option<(string, string)>
  {
    if source == "" || source[0] == '\r' then None
    else if source[0] == '"' then Some(("", source[1..]))
    else if source[0] == '\\' then
      if |source| == 1 then None
      else
        match source[1]
        case '\\' => Prepend('\\', Lex(source[2..]))
        case '"' => Prepend('"', Lex(source[2..]))
        case 'n' => Prepend('\n', Lex(source[2..]))
        case 'r' => Prepend('\r', Lex(source[2..]))
        case 't' => Prepend('\t', Lex(source[2..]))
        case _ => None
    else Prepend(source[0], Lex(source[1..]))
  }

  function Prepend(c: char, r: Option<(string, string)>): Option<(string, string)>
  {
    if r.Some? then Some(([c] + r.value.0, r.value.1)) else None
  }

  /** Round trip, in place: an escaped text between quotes lexes back to exactly that text and
      ends at exactly that quote, whatever source follows. */
  lemma {:induction false} EscapedLexesBack(s: string, rest: string)
    ensures Lex(Escaped(s) + "\"" + rest) == Some((s, rest))
  {
    var source := Escaped(s) + "\"" + rest;
    if s == "" {
      assert source[1..] == rest;
    } else {
      EscapedLexesBack(s[1..], rest);
      var tail := Escaped(s[1..]) + "\"" + rest;
      assert source == EscapedChar(s[0]) + tail;
      CharLexesBack(s[0], tail);
      assert s == [s[0]] + s[1..];
    }
  }

  /** One character's escaping is read as that character. */
  lemma CharLexesBack(c: char, tail: string)
    ensures Lex(EscapedChar(c) + tail) == Prepend(c, Lex(tail))
  {
    var head := EscapedChar(c);
    var source := head + tail;
    assert source[|head|..] == tail && source[0] == head[0];
    assert |head| == 2 ==> source[1] == head[1];
  }

  /** So no two texts are written alike. */
  lemma EscapingIsInjective(s: string, t: string)
    requires Escaped(s) == Escaped(t)
    ensures s == t
  {
    EscapedLexesBack(s, "");
    EscapedLexesBack(t, "");
  }
}
