/** Splitting at a separator, and decimal rendering: what the operator's name encodings are built from. */
module Text {

  /** The position of the first occurrence of `c`, or the length when there is none. */
  function IndexOf<T(==)>(s: seq<T>, c: T): (i: nat)
    ensures i <= |s|
    ensures i < |s| ==> s[i] == c
    ensures forall j :: 0 <= j < i ==> s[j] != c
  {
    if s == [] then 0 else if s[0] == c then 0 else 1 + IndexOf(s[1..], c)
  }

  /** The outcome of Go's `strings.SplitN(s, c, 2)`. */
  datatype Split<T> = Whole(all: seq<T>) | Parts(head: seq<T>, tail: seq<T>)

  function SplitFirst<T(==)>(s: seq<T>, c: T): (r: Split<T>)
    ensures r.Whole? ==> r.all == s && c !in s
    ensures r.Parts? ==> s == r.head + [c] + r.tail && c !in r.head
  {
    var i := IndexOf(s, c);
    if i == |s| then Whole(s) else Parts(s[..i], s[i + 1..])
  }

  /** A separator-free head is recovered exactly, whatever follows the separator. */
  lemma SplitJoin<T>(head: seq<T>, c: T, tail: seq<T>)
    requires c !in head
    ensures SplitFirst(head + [c] + tail, c) == Parts(head, tail)
  {
    var s := head + [c] + tail;
    var i := IndexOf(s, c);
    assert s[|head|] == c;
    assert forall j :: 0 <= j < |head| ==> s[j] == head[j];
    assert i == |head|;
    assert s[..|head|] == head && s[|head| + 1..] == tail;
  }

  /** Two joins with separator-free tails agree only when both parts agree. */
  lemma JoinLastInjective<T>(a: seq<T>, x: seq<T>, b: seq<T>, y: seq<T>, c: T)
    requires c !in x && c !in y
    requires a + [c] + x == b + [c] + y
    ensures a == b && x == y
  {
    var s := a + [c] + x;
    assert s[|a|] == c && s[|b|] == c;
    assert forall i :: |a| < i < |s| ==> s[i] == x[i - |a| - 1];
    assert forall i :: |b| < i < |s| ==> s[i] == y[i - |b| - 1];
    assert |a| == |b|;
    assert s[..|a|] == a && s[|a| + 1..] == x;
    assert s[..|b|] == b && s[|b| + 1..] == y;
  }

  function Digit(d: nat): (c: char)
    requires d < 10
  {
    '0' + d as char
  }

  function Digits(n: nat): (s: string)
    ensures s != ""
    ensures forall i :: 0 <= i < |s| ==> '0' <= s[i] <= '9'
  {
    if n < 10 then [Digit(n)] else Digits(n / 10) + [Digit(n % 10)]
  }

  /** Go's `strconv.FormatInt(n, 10)` and `%d`. */
  function Decimal(n: int): (s: string)
    ensures s != "" && '.' !in s
  {
    if n < 0 then "-" + Digits(-n) else Digits(n)
  }

  function DigitsValue(s: string): int {
    if s == "" then 0 else 10 * DigitsValue(s[..|s| - 1]) + (s[|s| - 1] as int - '0' as int)
  }

  lemma {:induction false} DigitsRoundTrip(n: nat)
    ensures DigitsValue(Digits(n)) == n
  {
    var s := Digits(n);
    if n < 10 {
      assert s[..0] == "";
    } else {
      DigitsRoundTrip(n / 10);
      assert s[..|s| - 1] == Digits(n / 10);
    }
  }

  function ParseDecimal(s: string): int
    requires s != ""
  {
    if s[0] == '-' then -DigitsValue(s[1..]) else DigitsValue(s)
  }

  lemma DecimalRoundTrip(n: int)
    ensures ParseDecimal(Decimal(n)) == n
  {
    if n < 0 {
      DigitsRoundTrip(-n);
      assert Decimal(n)[1..] == Digits(-n);
    } else {
      DigitsRoundTrip(n);
    }
  }

  lemma DecimalInjective(m: int, n: int)
    requires Decimal(m) == Decimal(n)
    ensures m == n
  {
    DecimalRoundTrip(m);
    DecimalRoundTrip(n);
  }
}
