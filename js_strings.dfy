/** The few JavaScript string operations the recipe validators rely on:
    String.prototype.trim, String.prototype.split with a one-character
    separator (and its inverse, join), and the decimal rendering of whole
    numbers used by String(n). */
module JsStrings {

  /** The characters trim() removes, as a fixed set: the ASCII white space
      and line terminators, the no-break space, the Unicode line and paragraph
      separators and the byte-order mark. */
  predicate IsWhitespace(c: char)
    ensures c == ' ' || c == '\t' || c == '\n' || c == '\r' ==> IsWhitespace(c)
    ensures IsWhitespace(c) ==> !IsDigit(c) && c != ','
  {
    c == ' ' || c == '\t' || c == '\n' || c == '\r' || c == '\U{000B}' || c == '\U{000C}'
    || c == '\U{00A0}' || c == '\U{2028}' || c == '\U{2029}' || c == '\U{FEFF}'
  }

  predicate AllWhitespace(s: string) {
    forall i :: 0 <= i < |s| ==> IsWhitespace(s[i])
  }

  /** The number of white-space characters s starts with: all of them
      white space, and the next character, if any, is not. */
  function LeadingWhitespace(s: string): (k: nat)
    ensures k <= |s|
    ensures forall i :: 0 <= i < k ==> IsWhitespace(s[i])
    ensures k == |s| || !IsWhitespace(s[k])
  {
    if |s| > 0 && IsWhitespace(s[0]) then 1 + LeadingWhitespace(s[1..]) else 0
  }

  /** Where the white space s ends with begins: every character from there on
      is white space, and the one before, if any, is not. */
  function TrailingStart(s: string): (k: nat)
    ensures k <= |s|
    ensures forall i :: k <= i < |s| ==> IsWhitespace(s[i])
    ensures k == 0 || !IsWhitespace(s[k - 1])
  {
    if |s| > 0 && IsWhitespace(s[|s| - 1]) then TrailingStart(s[..|s| - 1]) else |s|
  }

  /** s.trim(): s without its leading and trailing white space. The result
      is empty exactly for a string of white space only, and otherwise starts
      and ends with a character that is not white space. */
  function Trim(s: string): (r: string)
    ensures r == [] <==> AllWhitespace(s)
    ensures r == [] || (!IsWhitespace(r[0]) && !IsWhitespace(r[|r| - 1]))
  {
    var start := LeadingWhitespace(s);
    if start == |s| then []
    else
      var end := TrailingStart(s);
      assert !IsWhitespace(s[start]);
      s[start..end]
  }

  /** A string that neither starts nor ends with white space is its own trim. */
  lemma {:induction false} TrimUnchanged(s: string)
    requires |s| > 0 && !IsWhitespace(s[0]) && !IsWhitespace(s[|s| - 1])
    ensures Trim(s) == s
  {
    assert LeadingWhitespace(s) == 0;
    assert TrailingStart(s) == |s|;
    assert s[0..|s|] == s;
  }

  /** trim() removes white space at the two ends and nothing else: the
      string is some white space, its trim, and some white space. With the
      contract of Trim, which makes the trim start and end with a character
      that is not white space, this fixes the trim uniquely. */
  lemma {:induction false} TrimStripsEnds(s: string)
    ensures exists p, q :: AllWhitespace(p) && AllWhitespace(q) && s == p + Trim(s) + q
  {
    var start := LeadingWhitespace(s);
    if start == |s| {
      assert AllWhitespace(s) && AllWhitespace([]);
      assert s == s + Trim(s) + [];
    } else {
      var end := TrailingStart(s);
      assert !IsWhitespace(s[start]);
      var p, q := s[..start], s[end..];
      assert AllWhitespace(p) by {
        forall i | 0 <= i < |p| ensures IsWhitespace(p[i]) {
          assert p[i] == s[i];
        }
      }
      assert AllWhitespace(q) by {
        forall i | 0 <= i < |q| ensures IsWhitespace(q[i]) {
          assert q[i] == s[end + i];
        }
      }
      assert s == p + s[start..end] + q;
    }
  }

  /** Trimming twice is the same as trimming once. */
  lemma {:induction false} TrimIdempotent(s: string)
    ensures Trim(Trim(s)) == Trim(s)
  {
    var r := Trim(s);
    if r != [] {
      TrimUnchanged(r);
    }
  }

  /** The number of occurrences of c in s. */
  function Occurrences(s: string, c: char): nat {
    if |s| == 0 then 0 else (if s[0] == c then 1 else 0) + Occurrences(s[1..], c)
  }

  /** s.split(sep) for a one-character separator: the pieces between the
      separators, one more than there are separators, none containing it. */
  function Split(s: string, sep: char): (pieces: seq<string>)
    ensures |pieces| == Occurrences(s, sep) + 1
    ensures forall i :: 0 <= i < |pieces| ==> sep !in pieces[i]
  {
    if |s| == 0 then [""]
    else
      var rest := Split(s[1..], sep);
      if s[0] == sep then [""] + rest
      else [[s[0]] + rest[0]] + rest[1..]
  }

  /** pieces.join(sep) for a non-empty list of pieces. */
  function Join(pieces: seq<string>, sep: char): string
    requires |pieces| > 0
  {
    if |pieces| == 1 then pieces[0] else pieces[0] + [sep] + Join(pieces[1..], sep)
  }

  /** Joining the pieces of a split gives back the original string. */
  lemma {:induction false} JoinSplit(s: string, sep: char)
    ensures Join(Split(s, sep), sep) == s
  {
    if |s| > 0 {
      var rest := Split(s[1..], sep);
      JoinSplit(s[1..], sep);
      if s[0] == sep {
        assert Split(s, sep)[1..] == rest;
      } else {
        var pieces := Split(s, sep);
        assert pieces[1..] == rest[1..];
        if |rest| > 1 {
          assert Join(rest, sep) == rest[0] + [sep] + Join(rest[1..], sep);
        }
      }
    }
  }

  /** Splitting a join of separator-free pieces gives back the pieces. */
  lemma {:induction false} SplitJoin(pieces: seq<string>, sep: char)
    requires |pieces| > 0
    requires forall i :: 0 <= i < |pieces| ==> sep !in pieces[i]
    ensures Split(Join(pieces, sep), sep) == pieces
  {
    if |pieces| == 1 {
      SplitPiece(pieces[0], sep);
    } else {
      var tail := Join(pieces[1..], sep);
      SplitJoin(pieces[1..], sep);
      SplitPieceThenRest(pieces[0], tail, sep);
    }
  }

  /** A separator-free string splits into itself. */
  lemma {:induction false} SplitPiece(p: string, sep: char)
    requires sep !in p
    ensures Split(p, sep) == [p]
  {
    if |p| > 0 {
      assert sep !in p[1..];
      SplitPiece(p[1..], sep);
      assert [p[0]] + p[1..] == p;
    }
  }

  /** A separator-free piece, the separator and a tail split into the piece
      followed by the pieces of the tail. */
  lemma {:induction false} SplitPieceThenRest(p: string, tail: string, sep: char)
    requires sep !in p
    ensures Split(p + [sep] + tail, sep) == [p] + Split(tail, sep)
  {
    if |p| == 0 {
      assert p + [sep] + tail == [sep] + tail;
      assert ([sep] + tail)[1..] == tail;
    } else {
      var s := p + [sep] + tail;
      assert s[1..] == p[1..] + [sep] + tail;
      assert sep !in p[1..];
      SplitPieceThenRest(p[1..], tail, sep);
      assert [p[0]] + p[1..] == p;
    }
  }

  /** The first piece of a split is non-empty when the string starts with
      something other than the separator. */
  lemma {:induction false} FirstPieceNonEmpty(s: string, sep: char)
    requires |s| > 0 && s[0] != sep
    ensures Split(s, sep)[0] != "" && Split(s, sep)[0][0] == s[0]
  {
  }

  predicate IsDigit(c: char) {
    '0' <= c <= '9'
  }

  /** A non-empty string of decimal digits. */
  predicate IsDecimal(s: string) {
    |s| > 0 && forall i :: 0 <= i < |s| ==> IsDigit(s[i])
  }

  /** The whole number a string of decimal digits denotes. */
  function DecimalValue(s: string): nat
    requires forall i :: 0 <= i < |s| ==> IsDigit(s[i])
  {
    if |s| == 0 then 0
    else
      assert IsDigit(s[|s| - 1]);
      10 * DecimalValue(s[..|s| - 1]) + (s[|s| - 1] as int - '0' as int)
  }

  /** The shortest decimal rendering of n, as String(n) gives it. */
  function NatToDecimal(n: nat): (r: string)
    ensures IsDecimal(r)
    ensures r[0] == '0' ==> n == 0
  {
    if n < 10 then [('0' as int + n) as char] else NatToDecimal(n / 10) + [('0' as int + n % 10) as char]
  }

  /** Rendering a whole number in decimal and reading it back is the identity. */
  lemma {:induction false} DecimalRoundTrip(n: nat)
    ensures IsDecimal(NatToDecimal(n))
    ensures DecimalValue(NatToDecimal(n)) == n
  {
    if n >= 10 {
      DecimalRoundTrip(n / 10);
      var s := NatToDecimal(n);
      assert s[..|s| - 1] == NatToDecimal(n / 10);
    }
  }

  /** String(i) for an integer-valued number of moderate size: its decimal
      digits, after a minus sign when it is negative. */
  function IntToString(i: int): (r: string)
    ensures i >= 0 ==> IsDecimal(r) && DecimalValue(r) == i
    ensures i < 0 ==> |r| > 1 && r[0] == '-' && IsDecimal(r[1..]) && DecimalValue(r[1..]) == -i
  {
    if i < 0 then
      DecimalRoundTrip(-i);
      assert ("-" + NatToDecimal(-i))[1..] == NatToDecimal(-i);
      "-" + NatToDecimal(-i)
    else
      DecimalRoundTrip(i);
      NatToDecimal(i)
  }
}
