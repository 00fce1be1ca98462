/** The string helpers the editors rely on: JavaScript's `trim`, an ASCII
    `toLowerCase`, `replace(/\s+/g, "_")`, `includes`, and Python's decimal
    rendering of a natural number. */
module Text {

  /** The characters JavaScript's `trim` and the regular-expression class `\s`
      treat as white space (WhiteSpace and LineTerminator). */
  predicate IsWhitespace(c: char)
  {
    c == ' ' || c == '\t' || c == '\n' || c == '\r' || c == '\U{000B}' || c == '\U{000C}'
    || c == '\U{00A0}' || c == '\U{1680}' || ('\U{2000}' <= c <= '\U{200A}')
    || c == '\U{2028}' || c == '\U{2029}' || c == '\U{202F}' || c == '\U{205F}'
    || c == '\U{3000}' || c == '\U{FEFF}'
  }

  predicate AllWhitespace(s: string)
  {
    forall i :: 0 <= i < |s| ==> IsWhitespace(s[i])
  }

  /** The number of white-space characters `s` starts with. */
  function LeadingWhitespace(s: string): (n: nat)
    ensures n <= |s| && AllWhitespace(s[..n])
    ensures n < |s| ==> !IsWhitespace(s[n])
    decreases |s|
  {
    if s != [] && IsWhitespace(s[0]) then
      var n := LeadingWhitespace(s[1..]);
      assert s[..n + 1] == [s[0]] + s[1..][..n];
      n + 1
    else 0
  }

  /** The number of white-space characters `s` ends with. */
  function TrailingWhitespace(s: string): (n: nat)
    ensures n <= |s| && AllWhitespace(s[|s| - n..])
    ensures n < |s| ==> !IsWhitespace(s[|s| - n - 1])
    decreases |s|
  {
    if s != [] && IsWhitespace(s[|s| - 1]) then
      var s' := s[..|s| - 1];
      var n := TrailingWhitespace(s');
      assert s[|s| - (n + 1)..] == s'[|s'| - n..] + [s[|s| - 1]];
      n + 1
    else 0
  }

  /** JavaScript's `String.prototype.trim`: cut the leading white space, then
      the trailing white space of what is left. */
  function Trim(s: string): string
  {
    var t := s[LeadingWhitespace(s)..];
    t[..|t| - TrailingWhitespace(t)]
  }

  /** The trimmed string is a slice of the input with only white space cut
      off either end, and it neither starts nor ends with white space. */
  lemma TrimIsSlice(s: string) returns (i: nat, j: nat)
    ensures i <= j <= |s| && Trim(s) == s[i..j]
    ensures AllWhitespace(s[..i]) && AllWhitespace(s[j..])
    ensures Trim(s) != [] ==> !IsWhitespace(Trim(s)[0]) && !IsWhitespace(Trim(s)[|Trim(s)| - 1])
  {
    i := LeadingWhitespace(s);
    var t := s[i..];
    var m := TrailingWhitespace(t);
    j := i + |t| - m;
    assert Trim(s) == s[i..j];
    assert s[j..] == t[|t| - m..];
    if Trim(s) != [] {
      assert Trim(s)[0] == s[i];
      assert Trim(s)[|Trim(s)| - 1] == t[|t| - m - 1];
    }
  }

  /** `s.trim()` is empty exactly when every character of `s` is white space:
      the condition the editors use to refuse a blank name. */
  lemma {:induction false} TrimEmptyIffBlank(s: string)
    ensures Trim(s) == [] <==> AllWhitespace(s)
  {
    var i, j := TrimIsSlice(s);
    if Trim(s) == [] {
      forall k | 0 <= k < |s| ensures IsWhitespace(s[k]) {
        if k < i { assert s[k] == s[..i][k]; } else { assert s[k] == s[j..][k - j]; }
      }
    } else {
      assert s[i] == Trim(s)[0];
    }
  }

  /** Trimming twice changes nothing. */
  lemma TrimIdempotent(s: string)
    ensures Trim(Trim(s)) == Trim(s)
  {
    var t := Trim(s);
    var i, j := TrimIsSlice(s);
    assert LeadingWhitespace(t) == 0;
    assert TrailingWhitespace(t) == 0;
  }

  /** ASCII case folding, `String.prototype.toLowerCase` on 'A'..'Z'. */
  function LowerChar(c: char): char
  {
    if 'A' <= c <= 'Z' then (c as int - 'A' as int + 'a' as int) as char else c
  }

  function ToLower(s: string): (r: string)
    ensures |r| == |s|
    ensures forall i :: 0 <= i < |s| ==> r[i] == LowerChar(s[i])
  {
    seq(|s|, i requires 0 <= i < |s| => LowerChar(s[i]))
  }

  function DropLeadingWhitespace(s: string): (r: string)
    ensures |r| <= |s|
    ensures r != [] ==> !IsWhitespace(r[0])
  {
    if s != [] && IsWhitespace(s[0]) then DropLeadingWhitespace(s[1..]) else s
  }

  /** `s.replace(/\s+/g, sep)`: every maximal run of white space becomes one
      copy of `sep`. */
  function ReplaceWhitespaceRuns(s: string, sep: char): (r: string)
    decreases |s|
  {
    if s == [] then []
    else if IsWhitespace(s[0]) then [sep] + ReplaceWhitespaceRuns(DropLeadingWhitespace(s[1..]), sep)
    else [s[0]] + ReplaceWhitespaceRuns(s[1..], sep)
  }

  /** The replacement leaves no white space when the separator is not white
      space, and never makes the string longer. */
  lemma {:induction false} ReplaceRemovesWhitespace(s: string, sep: char)
    requires !IsWhitespace(sep)
    ensures forall i :: 0 <= i < |ReplaceWhitespaceRuns(s, sep)| ==> !IsWhitespace(ReplaceWhitespaceRuns(s, sep)[i])
    ensures |ReplaceWhitespaceRuns(s, sep)| <= |s|
    decreases |s|
  {
    if s != [] {
      if IsWhitespace(s[0]) {
        ReplaceRemovesWhitespace(DropLeadingWhitespace(s[1..]), sep);
      } else {
        ReplaceRemovesWhitespace(s[1..], sep);
      }
    }
  }

  /** Dropping the leading white space leaves a suffix of the string. */
  lemma {:induction false} DropIsSuffix(s: string)
    ensures DropLeadingWhitespace(s) == s[|s| - |DropLeadingWhitespace(s)|..]
    decreases |s|
  {
    if s != [] && IsWhitespace(s[0]) {
      DropIsSuffix(s[1..]);
    }
  }

  /** Every character of the replacement is the separator or a character of
      the input. */
  lemma {:induction false} ReplaceDrawsFrom(s: string, sep: char)
    ensures forall i :: 0 <= i < |ReplaceWhitespaceRuns(s, sep)| ==>
      ReplaceWhitespaceRuns(s, sep)[i] == sep || ReplaceWhitespaceRuns(s, sep)[i] in s
    decreases |s|
  {
    if s != [] {
      if IsWhitespace(s[0]) {
        var t := DropLeadingWhitespace(s[1..]);
        ReplaceDrawsFrom(t, sep);
        DropIsSuffix(s[1..]);
        assert forall c :: c in t ==> c in s;
      } else {
        ReplaceDrawsFrom(s[1..], sep);
        assert forall c :: c in s[1..] ==> c in s;
      }
    }
  }

  /** A string without white space is left as it is. */
  lemma {:induction false} ReplaceKeepsPlainText(s: string, sep: char)
    requires forall i :: 0 <= i < |s| ==> !IsWhitespace(s[i])
    ensures ReplaceWhitespaceRuns(s, sep) == s
    decreases |s|
  {
    if s != [] {
      ReplaceKeepsPlainText(s[1..], sep);
    }
  }

  /** `hay.includes(needle)`. */
  predicate Contains(hay: string, needle: string)
    decreases |hay|
  {
    needle <= hay || (hay != [] && Contains(hay[1..], needle))
  }

  function DigitChar(d: nat): char
    requires d < 10
  {
    ['0', '1', '2', '3', '4', '5', '6', '7', '8', '9'][d]
  }

  /** Python's `str(n)` for a natural number. */
  function NatToString(n: nat): (r: string)
    ensures r != []
    ensures forall i :: 0 <= i < |r| ==> '0' <= r[i] <= '9'
  {
    if n < 10 then [DigitChar(n)] else NatToString(n / 10) + [DigitChar(n % 10)]
  }
}
