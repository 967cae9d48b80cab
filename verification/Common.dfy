/** Vocabulary shared by the models: optional values, results, and the text
    primitives that several components use. */
module Common {

  datatype Option<+T> = None | Some(value: T)

  datatype Result<+T, +E> = Ok(value: T) | Err(error: E)

  // ---------- text ----------

  /** White space as Go's unicode.IsSpace sees it. */
  predicate IsGoSpace(c: char) {
    || c in " \t\n\r"
    || c == '\U{000B}' || c == '\U{000C}' || c == '\U{0085}' || c == '\U{00A0}'
    || c == '\U{1680}' || '\U{2000}' <= c <= '\U{200A}'
    || c == '\U{2028}' || c == '\U{2029}' || c == '\U{202F}' || c == '\U{205F}' || c == '\U{3000}'
  }

  function TrimLeft(s: string): string {
    if s != [] && IsGoSpace(s[0]) then TrimLeft(s[1..]) else s
  }

  function TrimRight(s: string): string {
    if s != [] && IsGoSpace(s[|s| - 1]) then TrimRight(s[..|s| - 1]) else s
  }

  /** Go's strings.TrimSpace. */
  function TrimSpace(s: string): string {
    TrimRight(TrimLeft(s))
  }

  predicate IsBlank(s: string) {
    TrimSpace(s) == ""
  }

  /** The first argument that is not blank, or "". */
  function FirstNonEmpty(a: string, b: string): string {
    if !IsBlank(a) then a else if !IsBlank(b) then b else ""
  }

  function DigitsOf(n: nat): string {
    if n < 10 then [('0' as int + n) as char] else DigitsOf(n / 10) + [('0' as int + n % 10) as char]
  }

  /** Decimal rendering of an integer. */
  function Decimal(n: int): string {
    if n < 0 then "-" + DigitsOf(-n) else DigitsOf(n)
  }

  /** What a row of digits stands for. */
  function ValueOf(digits: string): int {
    if digits == [] then 0 else 10 * ValueOf(digits[..|digits| - 1]) + (digits[|digits| - 1] as int - '0' as int)
  }

  lemma {:induction false} DigitsReadBack(n: nat)
    ensures DigitsOf(n) != [] && ValueOf(DigitsOf(n)) == n
    ensures forall i :: 0 <= i < |DigitsOf(n)| ==> '0' <= DigitsOf(n)[i] <= '9'
    ensures n > 0 ==> DigitsOf(n)[0] != '0'
  {
    if n >= 10 {
      DigitsReadBack(n / 10);
      var init, last := DigitsOf(n / 10), ('0' as int + n % 10) as char;
      assert (init + [last])[..|init|] == init;
    } else {
      assert DigitsOf(n)[..0] == [];
    }
  }

  /** Decimal rendering gives digits, without leading zeros, after a sign for a negative number, and
      they stand for the number. */
  lemma DecimalReadsBack(n: int)
    ensures var s := Decimal(n);
      && s != [] && (n < 0 <==> s[0] == '-')
      && (n >= 0 ==> ValueOf(s) == n) && (n < 0 ==> ValueOf(s[1..]) == -n)
      && (|s| > 1 && n >= 0 ==> s[0] != '0')
  {
    DigitsReadBack(if n < 0 then -n else n);
    assert n < 0 ==> Decimal(n)[1..] == DigitsOf(-n);
    assert n == 0 ==> |DigitsOf(0)| == 1;
  }

  /** The text before the first c. */
  function UpTo(s: string, c: char): string {
    if s == [] || s[0] == c then [] else [s[0]] + UpTo(s[1..], c)
  }

  lemma {:induction false} UpToSeparator(a: string, c: char, x: string)
    requires c !in a
    ensures UpTo(a + [c] + x, c) == a
  {
    var s := a + [c] + x;
    if a != [] {
      assert s[1..] == a[1..] + [c] + x;
      UpToSeparator(a[1..], c, x);
    }
  }

  lemma {:induction false} UpToAll(s: string, c: char)
    requires c !in s
    ensures UpTo(s, c) == s
  {
    if s != [] {
      UpToAll(s[1..], c);
    }
  }

  /** A text splits at its first separator in one way only. */
  lemma FirstSeparator(a: string, x: string, b: string, y: string, c: char)
    requires c !in a && c !in b && a + [c] + x == b + [c] + y
    ensures a == b && x == y
  {
    UpToSeparator(a, c, x);
    UpToSeparator(b, c, y);
    assert x == (a + [c] + x)[|a| + 1..];
    assert y == (b + [c] + y)[|b| + 1..];
  }

  /** JavaScript's join. */
  function Join(parts: seq<string>, separator: string): string {
    if parts == [] then ""
    else if |parts| == 1 then parts[0]
    else Join(parts[..|parts| - 1], separator) + separator + parts[|parts| - 1]
  }

  lemma {:induction false} JoinFromFront(parts: seq<string>, separator: string)
    requires |parts| > 1
    ensures Join(parts, separator) == parts[0] + separator + Join(parts[1..], separator)
  {
    var n := |parts| - 1;
    if n > 1 {
      JoinFromFront(parts[..n], separator);
      assert parts[..n][1..] == parts[1..][..n - 1];
    }
  }

  // ---------- sequences without repetition ----------

  predicate NoDuplicates<T(==)>(xs: seq<T>) {
    forall i, j :: 0 <= i < j < |xs| ==> xs[i] != xs[j]
  }

  /** Distinct elements of a list are no more than the list is long. */
  lemma {:induction false} DistinctFit<T>(xs: seq<T>, ys: seq<T>)
    requires NoDuplicates(xs) && forall x :: x in xs ==> x in ys
    ensures |xs| <= |ys|
    decreases |ys|
  {
    if xs != [] {
      var x := xs[|xs| - 1];
      assert x in ys;
      var k :| 0 <= k < |ys| && ys[k] == x;
      var rest := ys[..k] + ys[k + 1..];
      forall z | z in xs[..|xs| - 1] ensures z in rest {
        assert z in ys;
        var i :| 0 <= i < |ys| && ys[i] == z;
        assert rest[if i < k then i else i - 1] == z;
      }
      DistinctFit(xs[..|xs| - 1], rest);
    }
  }

  lemma NoDuplicatesConcat<T>(a: seq<T>, b: seq<T>)
    requires NoDuplicates(a) && NoDuplicates(b) && forall x :: x in a ==> x !in b
    ensures NoDuplicates(a + b)
  {
    forall i, j | 0 <= i < j < |a + b| ensures (a + b)[i] != (a + b)[j] {
      if i < |a| <= j {
        assert a[i] in a && b[j - |a|] in b;
      }
    }
  }
}
