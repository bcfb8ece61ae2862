/** The ServerQuery escape codec (internal/ts3/protocol.go): eleven reserved
    characters, each written on the wire as a backslash and a code letter.
    Both directions are single left-to-right passes that never re-scan their
    own output, which is how Go's `strings.Replacer` applies its table. */
module Ts3Protocol {
  import opened Errors

  const Bell: char := '\U{7}'
  const Backspace: char := '\U{8}'
  const FormFeed: char := '\U{C}'
  const VerticalTab: char := '\U{B}'

  /** The escaper table: the code letter that follows the backslash for each
      reserved character, `None` for every other character. */
  function EscapeCode(c: char): Option<char>
  {
    if c == '\\' then Some('\\')
    else if c == '/' then Some('/')
    else if c == ' ' then Some('s')
    else if c == '|' then Some('p')
    else if c == Bell then Some('a')
    else if c == Backspace then Some('b')
    else if c == FormFeed then Some('f')
    else if c == '\n' then Some('n')
    else if c == '\r' then Some('r')
    else if c == '\t' then Some('t')
    else if c == VerticalTab then Some('v')
    else None
  }

  /** The unescaper table: the character a backslash followed by `d` stands for. */
  function UnescapeCode(d: char): Option<char>
  {
    if d == '\\' then Some('\\')
    else if d == '/' then Some('/')
    else if d == 's' then Some(' ')
    else if d == 'p' then Some('|')
    else if d == 'a' then Some(Bell)
    else if d == 'b' then Some(Backspace)
    else if d == 'f' then Some(FormFeed)
    else if d == 'n' then Some('\n')
    else if d == 'r' then Some('\r')
    else if d == 't' then Some('\t')
    else if d == 'v' then Some(VerticalTab)
    else None
  }

  predicate Reserved(c: char)
  {
    EscapeCode(c).Some?
  }

  /** The two tables are inverse bijections between the reserved characters
      and the code letters. */
  lemma TablesInverse(c: char, d: char)
    ensures EscapeCode(c) == Some(d) <==> UnescapeCode(d) == Some(c)
  {
  }

  /** Number of reserved characters in `s`. */
  function CountReserved(s: string): nat
  {
    if s == [] then 0 else (if Reserved(s[0]) then 1 else 0) + CountReserved(s[1..])
  }

  /** How one character is written on the wire. */
  function EscapeChar(c: char): string
  {
    match EscapeCode(c)
    case Some(d) => ['\\', d]
    case None => [c]
  }

  /** `Escape`: every reserved character becomes its two-character token;
      every reserved character adds exactly one character to the length. */
  function Escape(s: string): (r: string)
    ensures |r| == |s| + CountReserved(s)
  {
    if s == [] then [] else EscapeChar(s[0]) + Escape(s[1..])
  }

  /** `Unescape`: a backslash followed by a known code letter becomes the
      character it stands for and both are consumed; any other character,
      including a backslash that starts no known token, is copied as it is. */
  function Unescape(s: string): (r: string)
    ensures |r| <= |s|
  {
    if s == [] then []
    else if |s| >= 2 && s[0] == '\\' && UnescapeCode(s[1]).Some? then
      [UnescapeCode(s[1]).value] + Unescape(s[2..])
    else
      [s[0]] + Unescape(s[1..])
  }

  /** The texts `Escape` can produce: every backslash starts a known token
      and no other reserved character stands on its own. */
  predicate WellEscaped(t: string)
    decreases |t|
  {
    if t == [] then true
    else if t[0] == '\\' then |t| >= 2 && UnescapeCode(t[1]).Some? && WellEscaped(t[2..])
    else !Reserved(t[0]) && WellEscaped(t[1..])
  }

  lemma UnescapeOfEscapedChar(c: char, t: string)
    ensures Unescape(EscapeChar(c) + t) == [c] + Unescape(t)
  {
    var e := EscapeChar(c) + t;
    match EscapeCode(c)
    case Some(d) =>
      TablesInverse(c, d);
      assert e[2..] == t;
    case None =>
      assert e[1..] == t;
  }

  /** Unescape is a left inverse of Escape, for every string. */
  lemma {:induction false} UnescapeEscape(s: string)
    ensures Unescape(Escape(s)) == s
  {
    if s != [] {
      UnescapeEscape(s[1..]);
      UnescapeOfEscapedChar(s[0], Escape(s[1..]));
      assert s == [s[0]] + s[1..];
    }
  }

  /** Escape only produces well-escaped text. */
  lemma {:induction false} EscapeWellEscaped(s: string)
    ensures WellEscaped(Escape(s))
  {
    if s != [] {
      EscapeWellEscaped(s[1..]);
      var e := Escape(s);
      var rest := Escape(s[1..]);
      match EscapeCode(s[0])
      case Some(d) =>
        TablesInverse(s[0], d);
        assert e[2..] == rest;
      case None =>
        assert e[1..] == rest;
    }
  }

  /** On well-escaped text Escape undoes Unescape, so Escape is a bijection
      onto the well-escaped texts. */
  lemma {:induction false} EscapeUnescape(t: string)
    requires WellEscaped(t)
    ensures Escape(Unescape(t)) == t
  {
    if t != [] {
      if t[0] == '\\' {
        EscapeUnescape(t[2..]);
        var c := UnescapeCode(t[1]).value;
        TablesInverse(c, t[1]);
        assert Unescape(t) == [c] + Unescape(t[2..]);
        assert Escape([c] + Unescape(t[2..])) == EscapeChar(c) + Escape(Unescape(t[2..]));
        assert t == [t[0], t[1]] + t[2..];
      } else {
        EscapeUnescape(t[1..]);
        assert Unescape(t) == [t[0]] + Unescape(t[1..]);
        assert ([t[0]] + Unescape(t[1..]))[1..] == Unescape(t[1..]);
        assert t == [t[0]] + t[1..];
      }
    }
  }

  /** Well-escaped text holds no raw space, `|` or control character; a `/`
      or a backslash in it is part of a token. */
  lemma {:induction false} WellEscapedHasNoRawReserved(t: string, i: int)
    requires WellEscaped(t)
    requires 0 <= i < |t|
    ensures t[i] != ' ' && t[i] != '|'
    ensures t[i] != Bell && t[i] != Backspace && t[i] != FormFeed && t[i] != VerticalTab
    ensures t[i] != '\n' && t[i] != '\r' && t[i] != '\t'
  {
    if t[0] == '\\' {
      if i >= 2 {
        WellEscapedHasNoRawReserved(t[2..], i - 2);
      }
    } else if i >= 1 {
      WellEscapedHasNoRawReserved(t[1..], i - 1);
    }
  }

  /** Escape's output holds no raw space, `|` or control character. */
  lemma EscapeHasNoRawSeparators(s: string)
    ensures forall i :: 0 <= i < |Escape(s)| ==> Escape(s)[i] != ' ' && Escape(s)[i] != '|'
    ensures forall i :: 0 <= i < |Escape(s)| ==>
      Escape(s)[i] !in {Bell, Backspace, FormFeed, VerticalTab, '\n', '\r', '\t'}
  {
    EscapeWellEscaped(s);
    forall i | 0 <= i < |Escape(s)|
      ensures Escape(s)[i] != ' ' && Escape(s)[i] != '|'
      ensures Escape(s)[i] !in {Bell, Backspace, FormFeed, VerticalTab, '\n', '\r', '\t'}
    {
      WellEscapedHasNoRawReserved(Escape(s), i);
    }
  }

  /** A character that is neither reserved nor a code letter occurs in
      Escape(s) exactly when it occurs in s (in particular `=`, which the
      response parser splits on). */
  lemma {:induction false} EscapeKeepsUnreserved(s: string, c: char)
    requires !Reserved(c) && UnescapeCode(c).None?
    ensures c in Escape(s) <==> c in s
  {
    if s != [] {
      EscapeKeepsUnreserved(s[1..], c);
      assert s == [s[0]] + s[1..];
      assert Escape(s) == EscapeChar(s[0]) + Escape(s[1..]);
    }
  }

  /** A string without reserved characters is its own escape. */
  lemma {:induction false} EscapeIdentity(s: string)
    requires forall i :: 0 <= i < |s| ==> !Reserved(s[i])
    ensures Escape(s) == s
  {
    if s != [] {
      EscapeIdentity(s[1..]);
      assert s == [s[0]] + s[1..];
    }
  }

  /** A string without backslashes is its own unescape: Unescape never fails
      and never invents characters. */
  lemma {:induction false} UnescapeIdentity(s: string)
    requires '\\' !in s
    ensures Unescape(s) == s
  {
    if s != [] {
      assert '\\' !in s[1..] by {
        forall i | 0 <= i < |s[1..]| ensures s[1..][i] != '\\' {
          assert s[1..][i] == s[i + 1];
        }
      }
      UnescapeIdentity(s[1..]);
      assert s == [s[0]] + s[1..];
    }
  }

  /** A backslash followed by a letter outside the table is passed through
      literally, together with that letter. */
  lemma UnescapeUnknownToken(x: char, t: string)
    requires UnescapeCode(x).None?
    ensures Unescape(['\\', x] + t) == ['\\', x] + Unescape(t)
  {
    var s := ['\\', x] + t;
    assert s[1..] == [x] + t;
    assert ([x] + t)[1..] == t;
  }

  /** The scan never looks at its own output: an escaped backslash followed
      by `s` unescapes to a backslash and `s`, not to a backslash and a space. */
  lemma UnescapeSinglePass()
    ensures Unescape("\\\\s") == "\\s"
    ensures Unescape("\\") == "\\"
    ensures Unescape("\\x") == "\\x"
  {
    assert "\\\\s"[2..] == "s";
    assert "\\x"[1..] == "x";
  }
}
