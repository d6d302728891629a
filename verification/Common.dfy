/** Small vocabulary shared by the other modules: optional values, integer helpers,
    and a few sequence functions the source takes from its standard library. */
module Common {

  datatype Option<+T> = None | Some(value: T) {
    function GetOr(default: T): T {
      match this
      case Some(v) => v
      case None => default
    }
  }

  function Max(a: int, b: int): int {
    if a >= b then a else b
  }

  function Min(a: int, b: int): int {
    if a <= b then a else b
  }

  /** The last (at most) n elements. */
  function Last<T>(s: seq<T>, n: nat): seq<T> {
    if |s| <= n then s else s[|s| - n..]
  }

  lemma {:induction false} LastSuffix<T>(s: seq<T>, n: nat, k: nat)
    requires k <= |Last(s, n)|
    ensures Last(s, n)[k..] == s[|s| - |Last(s, n)| + k..]
  {
  }

  lemma {:induction false} TakeSnoc<T>(s: seq<T>, i: nat)
    requires i < |s|
    ensures s[..i + 1] == s[..i] + [s[i]]
  {
  }

  lemma {:induction false} TakeAll<T>(s: seq<T>)
    ensures s[..|s|] == s
  {
  }

  lemma {:induction false} ConcatAssociative<T>(a: seq<T>, b: seq<T>, c: seq<T>)
    ensures a + b + c == a + (b + c)
  {
  }

  /** All sequences one after the other. */
  function Flatten<T>(ss: seq<seq<T>>): seq<T> {
    if ss == [] then [] else Flatten(ss[..|ss| - 1]) + ss[|ss| - 1]
  }

  lemma {:induction false} FlattenSnoc<T>(ss: seq<seq<T>>, s: seq<T>)
    ensures Flatten(ss + [s]) == Flatten(ss) + s
  {
    assert (ss + [s])[..|ss|] == ss;
  }

  function Reverse<T>(s: seq<T>): (r: seq<T>)
    ensures |r| == |s|
    ensures forall k :: 0 <= k < |s| ==> r[k] == s[|s| - 1 - k]
  {
    seq(|s|, k requires 0 <= k < |s| => s[|s| - 1 - k])
  }

  lemma {:induction false} ReverseCons<T>(x: T, s: seq<T>)
    ensures Reverse([x] + s) == Reverse(s) + [x]
  {
    var r := Reverse([x] + s);
    assert |r| == |s| + 1;
    forall k | 0 <= k <= |s| ensures r[k] == (Reverse(s) + [x])[k] {
      assert r[k] == ([x] + s)[|s| - k];
    }
  }

  lemma {:induction false} ReverseReverse<T>(s: seq<T>)
    ensures Reverse(Reverse(s)) == s
  {
    forall k | 0 <= k < |s| ensures Reverse(Reverse(s))[k] == s[k] {
      assert Reverse(Reverse(s))[k] == Reverse(s)[|s| - 1 - k];
    }
  }

  /** How often x occurs in s. */
  function Occurrences<T(==)>(s: seq<T>, x: T): nat {
    if s == [] then 0
    else Occurrences(s[..|s| - 1], x) + if s[|s| - 1] == x then 1 else 0
  }

  function Digit(d: nat): char
    requires d < 10
  {
    ('0' as int + d) as char
  }

  /** Decimal notation, as the source's format strings print a count. */
  function Decimal(n: nat): string {
    if n < 10 then [Digit(n)] else Decimal(n / 10) + [Digit(n % 10)]
  }

  predicate AreDigits(s: string) {
    forall i :: 0 <= i < |s| ==> '0' <= s[i] <= '9'
  }

  /** The number a decimal notation stands for. */
  function DecimalValue(s: string): nat
    requires AreDigits(s)
  {
    if s == "" then 0 else 10 * DecimalValue(s[..|s| - 1]) + (s[|s| - 1] as int - '0' as int)
  }

  /** Decimal notation stands for the number it was made of. */
  lemma {:induction false} DecimalRoundTrip(n: nat)
    ensures Decimal(n) != "" && AreDigits(Decimal(n))
    ensures DecimalValue(Decimal(n)) == n
    decreases n
  {
    if n < 10 {
      DigitBehind("", n);
      assert "" + [Digit(n)] == Decimal(n);
    } else {
      DecimalRoundTrip(n / 10);
      DigitBehind(Decimal(n / 10), n % 10);
    }
  }

  lemma {:induction false} DigitBehind(s: string, d: nat)
    requires d < 10 && AreDigits(s)
    ensures AreDigits(s + [Digit(d)])
    ensures DecimalValue(s + [Digit(d)]) == 10 * DecimalValue(s) + d
  {
    assert (s + [Digit(d)])[..|s|] == s;
  }
}
