/** The build helper `html_to_header.py`: the web page is embedded in the
    firmware as one C string literal. `escape_string` makes the page text
    safe to place between the literal's quotes, and the header also records
    the page's length. Python strings are sequences of code points, as
    Dafny strings are. */
module HtmlHeader {
  import opened CTypes

  /** Python's `s.replace(c, rep)` for a one-character pattern: every
      occurrence of `c` becomes `rep`, in one left-to-right pass whose
      output is not scanned again. */
  function ReplaceChar(s: string, c: char, rep: string): (r: string)
    ensures c !in s ==> r == s
    ensures forall x | x in r :: (x in s && x != c) || x in rep
  {
    if |s| == 0 then []
    else (if s[0] == c then rep else [s[0]]) + ReplaceChar(s[1..], c, rep)
  }

  /** Replacing in a concatenation replaces in each part. */
  lemma {:induction false} ReplaceCharAppend(a: string, b: string, c: char, rep: string)
    ensures ReplaceChar(a + b, c, rep) == ReplaceChar(a, c, rep) + ReplaceChar(b, c, rep)
  {
    if |a| > 0 {
      assert (a + b)[1..] == a[1..] + b;
      ReplaceCharAppend(a[1..], b, c, rep);
    } else {
      assert a + b == b;
    }
  }

  /** `escape_string`: backslashes are doubled first, then quotes, line
      feeds and carriage returns are written as `\"`, `\n` and `\r`. */
  function EscapeString(s: string): (r: string)
    ensures (forall x | x in s :: !IsSpecial(x)) ==> r == s
    ensures forall x | x in r :: x in s || x in "\\\"nr"
    ensures '\n' !in r && '\r' !in r
  {
    var s1 := ReplaceChar(s, '\\', "\\\\");
    var s2 := ReplaceChar(s1, '"', "\\\"");
    var s3 := ReplaceChar(s2, '\n', "\\n");
    ReplaceChar(s3, '\r', "\\r")
  }

  /** The four characters a C string literal cannot hold as they are. */
  predicate IsSpecial(x: char) {
    x == '\\' || x == '"' || x == '\n' || x == '\r'
  }

  /** The C escape of one character: the escape sequence for a special
      character, the character itself otherwise. */
  function EscapeChar(x: char): (r: string)
    ensures IsSpecial(x) ==> |r| == 2 && r[0] == '\\'
    ensures !IsSpecial(x) ==> r == [x]
  {
    if x == '\\' then "\\\\"
    else if x == '"' then "\\\""
    else if x == '\n' then "\\n"
    else if x == '\r' then "\\r"
    else [x]
  }

  /** The reference escaper: each character escaped on its own, the
      escapes concatenated. */
  function EscapeEach(s: string): string {
    if |s| == 0 then [] else EscapeChar(s[0]) + EscapeEach(s[1..])
  }

  /** One character goes through the four passes to its own escape: no
      pass touches what an earlier pass wrote. */
  lemma EscapeStringChar(x: char)
    ensures EscapeString([x]) == EscapeChar(x)
  {
    assert ReplaceChar([x], '\\', "\\\\") == if x == '\\' then "\\\\" else [x];
  }

  /** The four passes in sequence escape in one pass, character by
      character, and no escape is itself escaped again. */
  lemma {:induction false} EscapeStringIsPerChar(s: string)
    ensures EscapeString(s) == EscapeEach(s)
  {
    if |s| > 0 {
      assert s == [s[0]] + s[1..];
      EscapeStringAppend([s[0]], s[1..]);
      EscapeStringChar(s[0]);
      EscapeStringIsPerChar(s[1..]);
    }
  }

  /** Escaping a concatenation escapes each part. */
  lemma EscapeStringAppend(a: string, b: string)
    ensures EscapeString(a + b) == EscapeString(a) + EscapeString(b)
  {
    var a1, b1 := ReplaceChar(a, '\\', "\\\\"), ReplaceChar(b, '\\', "\\\\");
    ReplaceCharAppend(a, b, '\\', "\\\\");
    var a2, b2 := ReplaceChar(a1, '"', "\\\""), ReplaceChar(b1, '"', "\\\"");
    ReplaceCharAppend(a1, b1, '"', "\\\"");
    var a3, b3 := ReplaceChar(a2, '\n', "\\n"), ReplaceChar(b2, '\n', "\\n");
    ReplaceCharAppend(a2, b2, '\n', "\\n");
    ReplaceCharAppend(a3, b3, '\r', "\\r");
  }

  /** The body of a C string literal read back: the four escape sequences
      stand for their characters, and `None` marks text that is not a
      well-formed literal body — an unescaped quote, line feed or carriage
      return, a trailing backslash, or an escape other than those four
      (which the escaper never writes and this model does not interpret). */
  function Unescape(e: string): (r: Option<string>)
    ensures r.Some? ==> '\n' !in e && '\r' !in e
  {
    if |e| == 0 then Some([])
    else if e[0] == '\\' then
      if |e| < 2 then None
      else
        var x := if e[1] == '\\' then Some('\\')
                 else if e[1] == '"' then Some('"')
                 else if e[1] == 'n' then Some('\n')
                 else if e[1] == 'r' then Some('\r')
                 else None;
        match (x, Unescape(e[2..]))
        case (Some(c), Some(rest)) =>
          assert e == e[..2] + e[2..];
          Some([c] + rest)
        case _ => None
    else if e[0] == '"' || e[0] == '\n' || e[0] == '\r' then None
    else
      match Unescape(e[1..])
      case Some(rest) =>
        assert e == [e[0]] + e[1..];
        Some([e[0]] + rest)
      case None => None
  }

  /** Reading back the escape of a string and then more text reads back
      the string and then that text. */
  lemma {:induction false} UnescapeEscapeEach(s: string, tail: string)
    ensures Unescape(EscapeEach(s) + tail) ==
            if Unescape(tail).Some? then Some(s + Unescape(tail).value) else None
  {
    if |s| > 0 {
      var x := s[0];
      assert EscapeEach(s) + tail == EscapeChar(x) + (EscapeEach(s[1..]) + tail);
      UnescapeEscapeEach(s[1..], tail);
      var e := EscapeChar(x) + (EscapeEach(s[1..]) + tail);
      if IsSpecial(x) {
        assert e[2..] == EscapeEach(s[1..]) + tail;
      } else {
        assert e[1..] == EscapeEach(s[1..]) + tail;
      }
      if Unescape(tail).Some? {
        var t := Unescape(tail).value;
        assert s + t == [x] + (s[1..] + t);
      }
    } else {
      assert EscapeEach(s) + tail == tail;
      if Unescape(tail).Some? {
        assert s + Unescape(tail).value == Unescape(tail).value;
      }
    }
  }

  /** The escaped text, placed between quotes, is a C string literal whose
      value is the original text. */
  lemma EscapeRoundTrip(s: string)
    ensures Unescape(EscapeString(s)) == Some(s)
  {
    EscapeStringIsPerChar(s);
    UnescapeEscapeEach(s, []);
    assert EscapeEach(s) + [] == EscapeEach(s);
    assert s + [] == s;
  }

  /** Conversely, every well-formed literal body is the escape of what it
      reads back as, so the escaper reaches every literal whose escapes
      are among the four. */
  lemma {:induction false} UnescapeRoundTrip(e: string)
    requires Unescape(e).Some?
    ensures EscapeEach(Unescape(e).value) == e
  {
    if |e| > 0 {
      if e[0] == '\\' {
        UnescapeRoundTrip(e[2..]);
        assert e == e[..2] + e[2..];
      } else {
        UnescapeRoundTrip(e[1..]);
        assert e == [e[0]] + e[1..];
      }
    }
  }

  /** The escaped text holds no raw line feed or carriage return, so the
      literal stays on one line. */
  lemma NoRawLineBreaks(s: string)
    ensures '\n' !in EscapeString(s) && '\r' !in EscapeString(s)
  {
    EscapeRoundTrip(s);
  }

  /** Text with none of the four special characters is left as it is. */
  lemma {:induction false} EscapeIdentity(s: string)
    requires forall i | 0 <= i < |s| :: !IsSpecial(s[i])
    ensures EscapeString(s) == s
  {
    EscapeStringIsPerChar(s);
    EachIdentity(s);
  }

  lemma {:induction false} EachIdentity(s: string)
    requires forall i | 0 <= i < |s| :: !IsSpecial(s[i])
    ensures EscapeEach(s) == s
  {
    if |s| > 0 {
      assert !IsSpecial(s[0]);
      EachIdentity(s[1..]);
      assert s == [s[0]] + s[1..];
    }
  }

  /** The number of special characters in `s`. */
  function CountSpecial(s: string): nat {
    if |s| == 0 then 0 else (if IsSpecial(s[0]) then 1 else 0) + CountSpecial(s[1..])
  }

  /** Each special character grows by exactly one character. */
  lemma {:induction false} EscapeLength(s: string)
    ensures |EscapeString(s)| == |s| + CountSpecial(s)
  {
    EscapeStringIsPerChar(s);
    EachLength(s);
  }

  lemma {:induction false} EachLength(s: string)
    ensures |EscapeEach(s)| == |s| + CountSpecial(s)
  {
    if |s| > 0 {
      EachLength(s[1..]);
    }
  }

  /** `html_index_size`: Python's `len` of the page text, its number of
      code points, taken before escaping. */
  function HtmlIndexSize(html: string): (n: nat)
    ensures n <= |EscapeString(html)|
    ensures n == |EscapeString(html)| <==> CountSpecial(html) == 0
  {
    EscapeLength(html);
    |html|
  }

  /** Bytes of one code point in UTF-8, the encoding the page is read in
      and the compiler stores the literal in. */
  function Utf8Width(x: char): nat {
    if x as int < 0x80 then 1 else if x as int < 0x800 then 2 else if x as int < 0x10000 then 3 else 4
  }

  function Utf8Length(s: string): nat {
    if |s| == 0 then 0 else Utf8Width(s[0]) + Utf8Length(s[1..])
  }

  /** The recorded size is at most the page's size in bytes, and equals it
      exactly when the page is pure ASCII. */
  lemma {:induction false} HtmlIndexSizeVsBytes(html: string)
    ensures HtmlIndexSize(html) <= Utf8Length(html)
    ensures HtmlIndexSize(html) == Utf8Length(html) <==>
            forall i | 0 <= i < |html| :: html[i] as int < 0x80
  {
    if |html| > 0 {
      HtmlIndexSizeVsBytes(html[1..]);
      if forall i | 0 <= i < |html[1..]| :: html[1..][i] as int < 0x80 {
        if html[0] as int < 0x80 {
          forall i | 0 <= i < |html| ensures html[i] as int < 0x80 {
            if i > 0 { assert html[i] == html[1..][i - 1]; }
          }
        }
      } else {
        var j :| 0 <= j < |html[1..]| && html[1..][j] as int >= 0x80;
        assert html[j + 1] as int >= 0x80;
      }
    }
  }
}
