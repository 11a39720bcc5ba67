/**
  String operations the services rely on: the lexicographic order of `std::string`
  comparison, the decimal rendering of `std::to_string` for non-negative integers,
  and repetition by concatenation.
*/
module Text {

  /** `a <= b` on `std::string`: character-by-character comparison, a proper prefix
      ordered first. Characters compare by code point, which agrees with the byte order
      of their UTF-8 encoding. */
  predicate LexLe(a: string, b: string)
  {
    |a| == 0 || (|b| != 0 && (a[0] < b[0] || (a[0] == b[0] && LexLe(a[1..], b[1..]))))
  }

  lemma {:induction false} LexLeReflexive(a: string)
    ensures LexLe(a, a)
  {
    if |a| != 0 {
      LexLeReflexive(a[1..]);
    }
  }

  lemma {:induction false} LexLeTransitive(a: string, b: string, c: string)
    requires LexLe(a, b) && LexLe(b, c)
    ensures LexLe(a, c)
  {
    if |a| != 0 && a[0] == b[0] && b[0] == c[0] {
      LexLeTransitive(a[1..], b[1..], c[1..]);
    }
  }

  lemma {:induction false} LexLeTotal(a: string, b: string)
    ensures LexLe(a, b) || LexLe(b, a)
  {
    if |a| != 0 && |b| != 0 && a[0] == b[0] {
      LexLeTotal(a[1..], b[1..]);
    }
  }

  lemma {:induction false} LexLeAntisymmetric(a: string, b: string)
    requires LexLe(a, b) && LexLe(b, a)
    ensures a == b
  {
    if |a| != 0 {
      LexLeAntisymmetric(a[1..], b[1..]);
      assert a == [a[0]] + a[1..] && b == [b[0]] + b[1..];
    }
  }

  /** The character of a decimal digit. */
  function DigitChar(d: nat): (c: char)
    requires d < 10
    ensures '0' <= c <= '9' && c as int - '0' as int == d
  {
    ('0' as int + d) as char
  }

  /** `std::to_string(n)` for `n >= 0`: the decimal digits of `n`, no leading zero. */
  function NatToString(n: nat): (s: string)
    ensures 1 <= |s| && (|s| == 1 <==> n < 10)
    ensures s[|s| - 1] == DigitChar(n % 10)
  {
    if n < 10 then [DigitChar(n)] else NatToString(n / 10) + [DigitChar(n % 10)]
  }

  /** Different numbers have different decimal renderings. */
  lemma {:induction false} NatToStringInjective(a: nat, b: nat)
    requires NatToString(a) == NatToString(b)
    ensures a == b
  {
    var s := NatToString(a);
    if 10 <= a {
      assert NatToString(a / 10) == s[..|s| - 1] == NatToString(b / 10);
      NatToStringInjective(a / 10, b / 10);
    }
  }

  /** A number's rendering differs from that of every smaller number. */
  lemma NatToStringFresh(i: nat)
    ensures forall j: nat :: j < i ==> NatToString(j) != NatToString(i)
  {
    forall j: nat | j < i
      ensures NatToString(j) != NatToString(i)
    {
      if NatToString(j) == NatToString(i) {
        NatToStringInjective(j, i);
      }
    }
  }

  /** The renderings of `lo` up to `hi`, one number at a time. */
  lemma NamesExtend(lo: nat, hi: nat)
    requires lo <= hi
    ensures (set j | lo <= j < hi + 1 :: NatToString(j)) == (set j | lo <= j < hi :: NatToString(j)) + {NatToString(hi)}
  {
  }

  /** The rendering of a number in range is one of the range's renderings. */
  lemma InNames(lo: nat, hi: nat, j: nat)
    requires lo <= j < hi
    ensures NatToString(j) in (set k | lo <= k < hi :: NatToString(k))
  {
    var names := set k | lo <= k < hi :: NatToString(k);
    assert lo <= j < hi;
    assert NatToString(j) in names;
  }

  /** Filing one more entry under the rendering of `i` extends the numbered keys to `i`. */
  lemma NumberedKeys<V>(m: map<string, V>, v: V, lo: nat, i: nat)
    requires lo <= i
    requires m.Keys == (set j | lo <= j < i :: NatToString(j))
    ensures m[NatToString(i) := v].Keys == (set j | lo <= j < i + 1 :: NatToString(j))
  {
    NamesExtend(lo, i);
  }

  /** Filing under the rendering of `i` leaves the entries of `lo` up to `i - 1` alone. */
  lemma NumberedValues<V>(m: map<string, V>, f: nat -> V, lo: nat, i: nat)
    requires lo <= i
    requires forall j :: lo <= j < i ==> NatToString(j) in m && m[NatToString(j)] == f(j)
    ensures forall j :: lo <= j < i + 1 ==> m[NatToString(i) := f(i)][NatToString(j)] == f(j)
  {
    NatToStringFresh(i);
  }

  /** Filing value `f(i)` under the rendering of `i` extends a table numbered from `lo`
      up to `i` by one entry and leaves the earlier entries alone. */
  lemma NumberedInsert<V>(m: map<string, V>, f: nat -> V, lo: nat, i: nat)
    requires lo <= i
    requires m.Keys == (set j | lo <= j < i :: NatToString(j))
    requires forall j :: lo <= j < i ==> m[NatToString(j)] == f(j)
    ensures m[NatToString(i) := f(i)].Keys == (set j | lo <= j < i + 1 :: NatToString(j))
    ensures forall j :: lo <= j < i + 1 ==> m[NatToString(i) := f(i)][NatToString(j)] == f(j)
  {
    NumberedKeys(m, f(i), lo, i);
    forall j: nat | lo <= j < i
      ensures NatToString(j) in m
    {
      InNames(lo, i, j);
    }
    NumberedValues(m, f, lo, i);
  }

  /** `s` concatenated with itself `n` times. */
  function Repeat(s: string, n: nat): (r: string)
    ensures |r| == n * |s|
  {
    if n == 0 then [] else Repeat(s, n - 1) + s
  }
}
