/** The few pieces of Ruby's core library that the renderer relies on:
    `Array#join` with no separator, `String#split('')`, `Array#zip`,
    `Integer#to_s` and string interpolation of `nil`. Strings are sequences
    of characters, so a character count is a sequence length. */
module RubyBuiltins {

  datatype Option<T> = None | Some(value: T)

  /** `parts.join`: the parts glued together in order, no separator. */
  function Join(parts: seq<string>): (r: string)
    ensures |parts| == 0 ==> r == ""
    ensures |parts| == 1 ==> r == parts[0]
  {
    if parts == [] then "" else parts[0] + Join(parts[1..])
  }

  /** Joining is a monoid homomorphism: the join of two lists is the join
      of the first followed by the join of the second. */
  lemma {:induction false} JoinAppend(a: seq<string>, b: seq<string>)
    ensures Join(a + b) == Join(a) + Join(b)
  {
    if a == [] {
      assert a + b == b;
    } else {
      assert (a + b)[1..] == a[1..] + b;
      JoinAppend(a[1..], b);
    }
  }

  /** The length of a join is the sum of the lengths of its parts. */
  function TotalLength(parts: seq<string>): nat
  {
    if parts == [] then 0 else |parts[0]| + TotalLength(parts[1..])
  }

  lemma {:induction false} JoinLength(parts: seq<string>)
    ensures |Join(parts)| == TotalLength(parts)
  {
    if parts != [] {
      JoinLength(parts[1..]);
    }
  }

  /** `s.split('')`: one single-character string per character of `s`. */
  function SplitChars(s: string): seq<string>
  {
    if s == [] then [] else [[s[0]]] + SplitChars(s[1..])
  }

  lemma {:induction false} SplitCharsAt(s: string)
    ensures |SplitChars(s)| == |s|
    ensures forall i :: 0 <= i < |s| ==> SplitChars(s)[i] == [s[i]]
  {
    if s != [] {
      SplitCharsAt(s[1..]);
    }
  }

  /** Splitting into characters and joining them back gives the string. */
  lemma {:induction false} JoinSplitChars(s: string)
    ensures Join(SplitChars(s)) == s
  {
    if s != [] {
      SplitCharsAt(s);
      assert SplitChars(s)[1..] == SplitChars(s[1..]);
      JoinSplitChars(s[1..]);
    }
  }

  /** `a.zip(b)`: one pair per element of `a`; where `b` is shorter the
      missing partners are `nil`, and extra elements of `b` are dropped. */
  function Zip<A, B>(a: seq<A>, b: seq<B>): seq<(A, Option<B>)>
  {
    if a == [] then []
    else if b == [] then [(a[0], None)] + Zip(a[1..], b)
    else [(a[0], Some(b[0]))] + Zip(a[1..], b[1..])
  }

  lemma {:induction false} ZipAt<A, B>(a: seq<A>, b: seq<B>)
    ensures |Zip(a, b)| == |a|
    ensures forall i :: 0 <= i < |a| ==> Zip(a, b)[i].0 == a[i]
    ensures forall i :: 0 <= i < |a| && i < |b| ==> Zip(a, b)[i].1 == Some(b[i])
    ensures forall i :: |b| <= i < |a| ==> Zip(a, b)[i].1 == None
  {
    if a != [] {
      if b == [] {
        ZipAt(a[1..], b);
      } else {
        ZipAt(a[1..], b[1..]);
      }
    }
  }

  /** String interpolation `"#{x}"` of a value that may be `nil`:
      `nil.to_s` is the empty string. */
  function Interpolate(x: Option<string>): string
  {
    match x
    case None => ""
    case Some(s) => s
  }

  /** The decimal digit `d` as a character. */
  function DigitChar(d: nat): (c: char)
    requires d < 10
    ensures '0' <= c <= '9'
    ensures c as int - '0' as int == d
  {
    ('0' as int + d) as char
  }

  predicate IsDigits(s: string)
  {
    forall i :: 0 <= i < |s| ==> '0' <= s[i] <= '9'
  }

  /** `n.to_s`: the shortest decimal representation of `n`. */
  function NatToString(n: nat): (s: string)
    ensures |s| >= 1
    ensures IsDigits(s)
    ensures s[0] == '0' ==> n == 0
    decreases n
  {
    if n < 10 then [DigitChar(n)] else NatToString(n / 10) + [DigitChar(n % 10)]
  }

  /** The number that a string of decimal digits denotes. */
  function DecimalValue(s: string): nat
    requires IsDigits(s)
  {
    if s == [] then 0
    else 10 * DecimalValue(s[..|s| - 1]) + (s[|s| - 1] as int - '0' as int)
  }

  /** Reading the decimal representation back gives the number. */
  lemma {:induction false} NatToStringRoundTrip(n: nat)
    ensures DecimalValue(NatToString(n)) == n
    decreases n
  {
    var s := NatToString(n);
    if n >= 10 {
      NatToStringRoundTrip(n / 10);
      assert s[..|s| - 1] == NatToString(n / 10);
    }
  }

  /** Different numbers have different decimal representations. */
  lemma NatToStringInjective(m: nat, n: nat)
    ensures NatToString(m) == NatToString(n) ==> m == n
  {
    NatToStringRoundTrip(m);
    NatToStringRoundTrip(n);
  }
}
