/** The few operations of Python's `str` that the code-safety gate relies on:
    `strip()`, `split('\n')`, and `startswith`. Strings are sequences of
    Unicode scalar values; a Python `str` can also hold a lone surrogate,
    which a Dafny `char` cannot, so such texts are outside the model. */
module PyStr {

  /** The characters for which Python's `str.isspace()` holds; `strip()` with no
      argument removes exactly these. */
  predicate IsSpace(c: char) {
    var k := c as int;
    || k == 0x20
    || 0x09 <= k <= 0x0D
    || 0x1C <= k <= 0x1F
    || k == 0x85
    || k == 0xA0
    || k == 0x1680
    || 0x2000 <= k <= 0x200A
    || k == 0x2028
    || k == 0x2029
    || k == 0x202F
    || k == 0x205F
    || k == 0x3000
  }

  /** The number of whitespace characters at the start of `s`: every one of
      them is whitespace, and the character after them, if any, is not. */
  function LeadingSpaces(s: string): (k: nat)
    ensures k <= |s|
    ensures forall i :: 0 <= i < k ==> IsSpace(s[i])
    ensures k == |s| || !IsSpace(s[k])
  {
    if s != [] && IsSpace(s[0]) then 1 + LeadingSpaces(s[1..]) else 0
  }

  /** Where the whitespace at the end of `s` begins: every character from
      there on is whitespace, and the one before it, if any, is not. */
  function TrailingStart(s: string): (k: nat)
    ensures k <= |s|
    ensures forall i :: k <= i < |s| ==> IsSpace(s[i])
    ensures k == 0 || !IsSpace(s[k - 1])
  {
    if s != [] && IsSpace(s[|s| - 1]) then TrailingStart(s[..|s| - 1]) else |s|
  }

  /** `s.lstrip()`: `s` without its leading whitespace. */
  function LStrip(s: string): string {
    s[LeadingSpaces(s)..]
  }

  /** `s.rstrip()`: `s` without its trailing whitespace. */
  function RStrip(s: string): string {
    s[..TrailingStart(s)]
  }

  /** `s.strip()`: whitespace removed from both ends. */
  function Strip(s: string): (r: string)
    ensures |r| <= |s|
    ensures r == [] || (!IsSpace(r[0]) && !IsSpace(r[|r| - 1]))
    ensures (s == [] || (!IsSpace(s[0]) && !IsSpace(s[|s| - 1]))) ==> r == s
  {
    RStrip(LStrip(s))
  }

  /** `strip()` keeps the middle of the text: the result is the stretch of
      `s` that starts right after the leading whitespace, and everything
      after it is whitespace. */
  lemma StripKeepsMiddle(s: string)
    ensures var i := LeadingSpaces(s);
            && i + |Strip(s)| <= |s|
            && Strip(s) == s[i..i + |Strip(s)|]
            && forall j :: i + |Strip(s)| <= j < |s| ==> IsSpace(s[j])
  {
    var i := LeadingSpaces(s);
    var t := LStrip(s);
    var k := TrailingStart(t);
    assert Strip(s) == t[..k];
    assert t[..k] == s[i..i + k];
    forall j | i + k <= j < |s| ensures IsSpace(s[j]) {
      assert s[j] == t[j - i];
    }
  }

  /** `s.split(sep)` for a one-character separator: the pieces between the
      occurrences of `sep`. Like Python's, it never returns an empty list, and
      no piece contains the separator. */
  function Split(s: string, sep: char): (pieces: seq<string>)
    ensures |pieces| >= 1
    ensures forall i :: 0 <= i < |pieces| ==> sep !in pieces[i]
  {
    if s == [] then [[]]
    else
      var rest := Split(s[1..], sep);
      if s[0] == sep then [[]] + rest
      else [[s[0]] + rest[0]] + rest[1..]
  }

  /** `sep.join(pieces)`. */
  function Join(pieces: seq<string>, sep: char): string {
    if |pieces| == 0 then []
    else if |pieces| == 1 then pieces[0]
    else pieces[0] + [sep] + Join(pieces[1..], sep)
  }

  /** Splitting loses nothing: joining the pieces back gives the original text. */
  lemma {:induction false} JoinSplit(s: string, sep: char)
    ensures Join(Split(s, sep), sep) == s
  {
    if s != [] {
      var rest := Split(s[1..], sep);
      JoinSplit(s[1..], sep);
      if s[0] == sep {
        assert Split(s, sep) == [[]] + rest;
        assert ([[]] + rest)[1..] == rest;
        assert Join(Split(s, sep), sep) == [] + [sep] + Join(rest, sep);
      } else {
        var first := [s[0]] + rest[0];
        assert Split(s, sep) == [first] + rest[1..];
        if |rest| == 1 {
          assert Join(Split(s, sep), sep) == first;
        } else {
          assert ([first] + rest[1..])[1..] == rest[1..];
          assert Join(Split(s, sep), sep) == first + [sep] + Join(rest[1..], sep);
          assert Join(rest, sep) == rest[0] + [sep] + Join(rest[1..], sep);
        }
      }
      assert s == [s[0]] + s[1..];
    }
  }

  /** The first element of `s.split('\n')`. */
  function FirstLine(s: string): (line: string)
    ensures '\n' !in line
  {
    Split(s, '\n')[0]
  }

  /** The first line is the longest prefix of the text that holds no line break:
      it is a prefix, it has no '\n', and it stops only at a '\n' or at the end. */
  lemma {:induction false} FirstLineIsLeadingSegment(s: string)
    ensures FirstLine(s) <= s
    ensures '\n' !in FirstLine(s)
    ensures |FirstLine(s)| < |s| ==> s[|FirstLine(s)|] == '\n'
  {
    if s != [] && s[0] != '\n' {
      FirstLineIsLeadingSegment(s[1..]);
      assert FirstLine(s) == [s[0]] + FirstLine(s[1..]);
    }
  }

  /** A prefix test on the first line is a prefix test on the whole text, for
      any prefix that holds no line break. */
  lemma PrefixOfFirstLine(s: string, p: string)
    requires '\n' !in p
    ensures p <= FirstLine(s) <==> p <= s
  {
    FirstLineIsLeadingSegment(s);
  }

  /** Removing trailing whitespace cannot make or break a prefix test whose
      prefix ends in a character that is not whitespace. */
  lemma PrefixOfRStrip(s: string, p: string)
    requires p != [] && !IsSpace(p[|p| - 1])
    ensures p <= RStrip(s) <==> p <= s
  {
    if p <= s {
      assert s[|p| - 1] == p[|p| - 1];
    }
  }

  /** `s.strip().split('\n')[0].startswith(p)` is the same test as
      `s.lstrip().startswith(p)` when `p` has no line break and does not end
      in whitespace. */
  lemma StrippedFirstLinePrefix(s: string, p: string)
    requires '\n' !in p
    requires p != [] && !IsSpace(p[|p| - 1])
    ensures p <= FirstLine(Strip(s)) <==> p <= LStrip(s)
  {
    PrefixOfFirstLine(Strip(s), p);
    PrefixOfRStrip(LStrip(s), p);
  }
}
