/** Go building blocks the scanner relies on: error results, fixed-width
    integers, `strings.Contains` and the decimal rendering of `%d`. */
module Base {

  datatype Option<+T> = None | Some(value: T)

  /** A Go `(T, error)` pair: either a value or the text of the error. */
  datatype Result<+T> = Ok(value: T) | Err(error: string)

  const TwoTo32: int := 0x1_0000_0000

  type Int32 = x: int | -0x8000_0000 <= x < 0x8000_0000
  type Int64 = x: int | -0x8000_0000_0000_0000 <= x < 0x8000_0000_0000_0000
  type Uint32 = x: int | 0 <= x < 0x1_0000_0000
  type Uint64 = x: int | 0 <= x < 0x1_0000_0000_0000_0000

  function Last<T>(s: seq<T>): T
    requires |s| > 0
  {
    s[|s| - 1]
  }

  /** Some reply of a retried call succeeds. */
  predicate HasOk<T>(rs: seq<Result<T>>) {
    exists k :: 0 <= k < |rs| && rs[k].Ok?
  }

  /** The index of the first successful reply. */
  function FirstOk<T>(rs: seq<Result<T>>): (k: nat)
    requires HasOk(rs)
    ensures k < |rs| && rs[k].Ok?
    ensures forall j :: 0 <= j < k ==> rs[j].Err?
  {
    if rs[0].Ok? then 0
    else
      assert HasOk(rs[1..]) by {
        var k :| 0 <= k < |rs| && rs[k].Ok?;
        assert rs[1..][k - 1] == rs[k];
      }
      1 + FirstOk(rs[1..])
  }

  /** Go's `x++` on a `uint32`: one more, wrapping to 0 past the largest value. */
  function Inc32(x: Uint32): (r: Uint32)
    ensures x + 1 < TwoTo32 ==> r == x + 1
    ensures x + 1 == TwoTo32 ==> r == 0
  {
    (x + 1) % TwoTo32
  }

  /** `strings.Contains(s, sub)`: `sub` occurs in `s` at some offset. */
  predicate Contains(s: string, sub: string) {
    exists i :: 0 <= i <= |s| - |sub| && OccursAt(s, sub, i)
  }

  predicate OccursAt(s: string, sub: string, i: nat)
    requires i + |sub| <= |s|
  {
    s[i..i + |sub|] == sub
  }

  function DigitChar(d: nat): (c: char)
    requires d < 10
    ensures '0' <= c <= '9'
  {
    ('0' as int + d) as char
  }

  /** The decimal digits of `n`, most significant first, as `%d` prints them. */
  function NatToDec(n: nat): (s: string)
    ensures 1 <= |s| && (|s| == 1 <==> n < 10)
    ensures forall i :: 0 <= i < |s| ==> '0' <= s[i] <= '9'
  {
    if n < 10 then [DigitChar(n)] else NatToDec(n / 10) + [DigitChar(n % 10)]
  }

  /** `%d` of a signed integer: a '-' before the digits of its magnitude. */
  function IntToDec(x: int): (s: string)
    ensures 1 <= |s|
    ensures forall i :: 0 < i < |s| ==> '0' <= s[i] <= '9'
    ensures s[0] == '-' <==> x < 0
    ensures forall i :: 0 <= i < |s| ==> s[i] == '-' || '0' <= s[i] <= '9'
  {
    if x < 0 then "-" + NatToDec(-x) else NatToDec(x)
  }

  /** Distinct numbers print differently. */
  lemma {:induction false} NatToDecInjective(a: nat, b: nat)
    requires NatToDec(a) == NatToDec(b)
    ensures a == b
    decreases a
  {
    var s := NatToDec(a);
    if a < 10 {
      assert b < 10;
      assert s[0] == DigitChar(a) == DigitChar(b);
    } else {
      assert b >= 10;
      assert NatToDec(a) == NatToDec(a / 10) + [DigitChar(a % 10)];
      assert NatToDec(b) == NatToDec(b / 10) + [DigitChar(b % 10)];
      assert s[..|s| - 1] == NatToDec(a / 10) && s[..|s| - 1] == NatToDec(b / 10);
      assert Last(s) == DigitChar(a % 10) == DigitChar(b % 10);
      NatToDecInjective(a / 10, b / 10);
    }
  }

  lemma IntToDecInjective(a: int, b: int)
    requires IntToDec(a) == IntToDec(b)
    ensures a == b
  {
    var s := IntToDec(a);
    if a < 0 {
      assert b < 0;
      assert s[1..] == NatToDec(-a) && s[1..] == NatToDec(-b);
      NatToDecInjective(-a, -b);
    } else {
      assert b >= 0;
      NatToDecInjective(a, b);
    }
  }

  /** Two strings each joined at a separator that the left parts do not
      contain are equal only if both parts are. */
  lemma SplitAtSeparator(x: string, y: string, x': string, y': string, sep: char)
    requires sep !in x && sep !in x'
    requires x + [sep] + y == x' + [sep] + y'
    ensures x == x' && y == y'
  {
    var s := x + [sep] + y;
    var s' := x' + [sep] + y';
    FirstSeparator(x, y, sep);
    FirstSeparator(x', y', sep);
    assert |x| == |x'|;
    assert x == s[..|x|] == s'[..|x|] == x';
    assert y == s[|x| + 1..] == s'[|x| + 1..] == y';
  }

  /** In `x + [sep] + y` with no `sep` in `x`, the first `sep` sits at `|x|`. */
  lemma FirstSeparator(x: string, y: string, sep: char)
    requires sep !in x
    ensures (x + [sep] + y)[|x|] == sep
    ensures forall i :: 0 <= i < |x| ==> (x + [sep] + y)[i] != sep
  {
  }
}
