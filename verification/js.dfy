/**
 The few pieces of JavaScript semantics the components depend on: `null`,
 truthiness of JSON values, thrown values, `String.prototype.trim` and
 `String.prototype.substring`.
 */
module Js {

  /** `T | null`. */
  datatype Option<+T> = None | Some(value: T)

  /** A JSON value as the code reads it out of a parsed body: missing
      (`undefined`), a string, or any other value (number, boolean, `null`,
      array, object), which the code only tests for truthiness and renders
      with `String(...)`; both of those are carried along as given. */
  datatype Field = Absent | Str(s: string) | Opaque(truthy: bool, asText: string)

  /** JavaScript truthiness: `undefined` and the empty string are falsy. */
  predicate Truthy(f: Field) {
    match f
    case Absent => false
    case Str(s) => s != ""
    case Opaque(t, _) => t
  }

  /** `a || b`. */
  function Or(a: Field, b: Field): Field {
    if Truthy(a) then a else b
  }

  /** `String(f)`, as used by template literals and `new Error(f)`. */
  function ToText(f: Field): string {
    match f
    case Absent => "undefined"
    case Str(s) => s
    case Opaque(_, t) => t
  }

  /** Whatever a `throw` or a rejected promise carries. */
  datatype Thrown = ErrorValue(message: string) | StringValue(s: string) | OtherValue

  /** The characters `trim` removes: ECMAScript WhiteSpace (including every
      space separator) and LineTerminator. */
  predicate IsWhitespace(c: char) {
    || c == '\t' || c == '\n' || c == '\U{000B}' || c == '\U{000C}' || c == '\r'
    || c == ' ' || c == '\U{00A0}' || c == '\U{1680}'
    || ('\U{2000}' <= c <= '\U{200A}')
    || c == '\U{2028}' || c == '\U{2029}' || c == '\U{202F}' || c == '\U{205F}'
    || c == '\U{3000}' || c == '\U{FEFF}'
  }

  /** True iff `s.trim()` is empty. */
  predicate Blank(s: string) {
    forall i :: 0 <= i < |s| ==> IsWhitespace(s[i])
  }

  lemma BlankConcat(a: string, b: string)
    ensures Blank(a + b) <==> Blank(a) && Blank(b)
  {
    if Blank(a + b) {
      forall i | 0 <= i < |b| ensures IsWhitespace(b[i]) {
        assert b[i] == (a + b)[|a| + i];
      }
      forall i | 0 <= i < |a| ensures IsWhitespace(a[i]) {
        assert a[i] == (a + b)[i];
      }
    }
    if Blank(a) && Blank(b) {
      forall i | 0 <= i < |a + b| ensures IsWhitespace((a + b)[i]) {
        if i < |a| {
          assert (a + b)[i] == a[i];
        } else {
          assert (a + b)[i] == b[i - |a|];
        }
      }
    }
  }

  /** Number of leading whitespace characters. */
  function LeadingWhitespace(s: string): (n: nat)
    ensures n <= |s|
    ensures Blank(s[..n])
    ensures n < |s| ==> !IsWhitespace(s[n])
  {
    if |s| == 0 || !IsWhitespace(s[0]) then 0
    else
      var n := 1 + LeadingWhitespace(s[1..]);
      assert s[..n] == [s[0]] + s[1..][..n - 1];
      n
  }

  /** Number of trailing whitespace characters. */
  function TrailingWhitespace(s: string): (n: nat)
    ensures n <= |s|
    ensures Blank(s[|s| - n..])
    ensures n < |s| ==> !IsWhitespace(s[|s| - n - 1])
  {
    if |s| == 0 || !IsWhitespace(s[|s| - 1]) then 0
    else
      var init := s[..|s| - 1];
      var n := 1 + TrailingWhitespace(init);
      assert s[|s| - n..] == init[|init| - (n - 1)..] + [s[|s| - 1]];
      n
  }

  /** `s.trim()`: the slice of `s` between its leading and its trailing
      whitespace. It is empty exactly when `s` is blank; otherwise it starts
      and ends with a non-whitespace character. */
  function Trim(s: string): (r: string)
    ensures LeadingWhitespace(s) + |r| <= |s|
    ensures r == s[LeadingWhitespace(s)..LeadingWhitespace(s) + |r|]
    ensures Blank(s[LeadingWhitespace(s) + |r|..])
    ensures r == [] <==> Blank(s)
    ensures r != [] ==> !IsWhitespace(r[0]) && !IsWhitespace(r[|r| - 1])
  {
    var lo := LeadingWhitespace(s);
    var t := s[lo..];
    TrimSlice(s);
    t[..|t| - TrailingWhitespace(t)]
  }

  /** The slice `Trim` takes is empty exactly when `s` is blank. */
  lemma TrimSlice(s: string)
    ensures var t := s[LeadingWhitespace(s)..];
            var r := t[..|t| - TrailingWhitespace(t)];
            && (r == [] <==> Blank(s))
            && (r != [] ==> !IsWhitespace(r[0]) && !IsWhitespace(r[|r| - 1]))
            && Blank(s[LeadingWhitespace(s) + |r|..])
  {
    var lo := LeadingWhitespace(s);
    var t := s[lo..];
    var n := TrailingWhitespace(t);
    TrimSliceEmpty(s, lo, t, n);
    TrimSliceEnds(s, lo, t, n);
  }

  /** The slice starts and ends with a non-whitespace character, and what
      follows it in `s` is whitespace. */
  lemma TrimSliceEnds(s: string, lo: nat, t: string, n: nat)
    requires lo == LeadingWhitespace(s) && t == s[lo..] && n == TrailingWhitespace(t)
    ensures var r := t[..|t| - n];
            && (r != [] ==> !IsWhitespace(r[0]) && !IsWhitespace(r[|r| - 1]))
            && Blank(s[lo + |r|..])
  {
    var r := t[..|t| - n];
    assert s[lo + |r|..] == t[|t| - n..];
    if r != [] {
      assert r[0] == s[lo];
      assert r[|r| - 1] == t[|t| - n - 1];
    }
  }

  /** Nothing is left between the leading and the trailing whitespace
      exactly when the whole string is whitespace. */
  lemma TrimSliceEmpty(s: string, lo: nat, t: string, n: nat)
    requires lo == LeadingWhitespace(s) && t == s[lo..] && n == TrailingWhitespace(t)
    ensures n == |t| <==> Blank(s)
  {
    if n == |t| {
      assert t == t[|t| - n..];
      assert s == s[..lo] + t;
      BlankConcat(s[..lo], t);
    }
    if Blank(s) {
      assert lo == |s|;
    }
  }

  /** `s.substring(start, end)`: both bounds are clamped to `[0, |s|]` and
      swapped when out of order. */
  function Substring(s: string, start: int, end: int): (r: string)
    ensures |r| <= |s|
    ensures 0 <= start <= end <= |s| ==> r == s[start..end]
    ensures 0 <= start <= |s| <= end ==> r == s[start..]
    ensures 0 <= end <= start <= |s| ==> r == s[end..start]
    ensures start <= 0 <= end <= |s| ==> r == s[..end]
    ensures end <= 0 <= start <= |s| ==> r == s[..start]
    ensures |s| <= start && 0 <= end <= |s| ==> r == s[end..]
    ensures (start <= 0 && |s| <= end) || (end <= 0 && |s| <= start) ==> r == s
    ensures start <= 0 && end <= 0 ==> r == []
    ensures |s| <= start && |s| <= end ==> r == []
  {
    var a := if start < 0 then 0 else if start > |s| then |s| else start;
    var b := if end < 0 then 0 else if end > |s| then |s| else end;
    if a <= b then s[a..b] else s[b..a]
  }

  /** The order of the two bounds never matters. */
  lemma SubstringSymmetric(s: string, start: int, end: int)
    ensures Substring(s, start, end) == Substring(s, end, start)
  {
  }
}
