/** Small shared vocabulary: optional values, results, string searches and decimal printing. */
module Basics {

  datatype Option<+T> = None | Some(value: T)

  datatype Result<+T, +E> = Ok(value: T) | Err(error: E)

  predicate IsDigit(c: char) {
    '0' <= c <= '9'
  }

  function DigitChar(d: nat): (c: char)
    requires d < 10
    ensures IsDigit(c)
  {
    '0' + d as char
  }

  /** How a non-negative integer prints. */
  function Decimal(n: nat): (s: string)
    ensures s != "" && forall i | 0 <= i < |s| :: IsDigit(s[i])
  {
    if n < 10 then [DigitChar(n)] else Decimal(n / 10) + [DigitChar(n % 10)]
  }

  /** The number a row of digits stands for. */
  function ValueOf(digits: string): nat
    requires forall i | 0 <= i < |digits| :: IsDigit(digits[i])
  {
    if digits == "" then 0
    else
      var last := digits[|digits| - 1];
      assert IsDigit(last);
      10 * ValueOf(digits[..|digits| - 1]) + (last - '0') as int
  }

  /** It is the number's own digits, without a leading zero. */
  lemma {:induction false} DecimalReads(n: nat)
    ensures ValueOf(Decimal(n)) == n && (Decimal(n)[0] == '0' ==> n == 0)
  {
    var s := Decimal(n);
    if n < 10 {
      assert s[..|s| - 1] == "" && s == [DigitChar(n)];
    } else {
      DecimalReads(n / 10);
      assert s[..|s| - 1] == Decimal(n / 10) && s[0] == Decimal(n / 10)[0];
    }
  }

  lemma {:induction false} DecimalIsInjective(m: nat, n: nat)
    requires Decimal(m) == Decimal(n)
    ensures m == n
  {
    var s, t := Decimal(m), Decimal(n);
    assert s[|s| - 1] == DigitChar(m % 10) && t[|t| - 1] == DigitChar(n % 10);
    if m >= 10 && n >= 10 {
      assert Decimal(m / 10) == s[..|s| - 1] && Decimal(n / 10) == t[..|t| - 1];
      DecimalIsInjective(m / 10, n / 10);
    }
  }

  /** `indexOf`: the first position of `c`, or -1. */
  function IndexOf(s: string, c: char): (i: int)
    ensures -1 <= i < |s|
    ensures i >= 0 ==> s[i] == c
    ensures forall j | 0 <= j < (if i < 0 then |s| else i) :: s[j] != c
  {
    if s == [] then -1
    else if s[0] == c then 0
    else
      var i := IndexOf(s[1..], c);
      if i < 0 then -1 else i + 1
  }

  predicate StartsWith(s: string, prefix: string) {
    |prefix| <= |s| && s[..|prefix|] == prefix
  }

  /** `toLowerCase`, on the letters the sources compare against. */
  function ToLowerChar(c: char): char {
    if 'A' <= c <= 'Z' then c + 32 as char else c
  }

  function ToLower(s: string): string {
    seq(|s|, i requires 0 <= i < |s| => ToLowerChar(s[i]))
  }

  /** Each capital letter becomes the small one, and nothing else changes. */
  lemma LowerIsSmall(s: string)
    ensures |ToLower(s)| == |s|
    ensures forall i, k | 0 <= i < |s| && 0 <= k < 26 && s[i] == "ABCDEFGHIJKLMNOPQRSTUVWXYZ"[k] ::
      ToLower(s)[i] == "abcdefghijklmnopqrstuvwxyz"[k]
    ensures forall i | 0 <= i < |s| && s[i] !in "ABCDEFGHIJKLMNOPQRSTUVWXYZ" :: ToLower(s)[i] == s[i]
  { }

  /** `path.join("/")`. */
  function Join(p: seq<string>): string {
    if p == [] then "" else if |p| == 1 then p[0] else p[0] + "/" + Join(p[1..])
  }

  /** A path whose segments a joined path keeps apart. */
  predicate SlashFree(p: seq<string>) {
    p != [] && forall i | 0 <= i < |p| :: '/' !in p[i]
  }

  lemma FirstSlash(p: seq<string>)
    requires SlashFree(p)
    ensures IndexOf(Join(p), '/') == if |p| > 1 then |p[0]| else -1
    ensures |p| > 1 ==> Join(p)[..|p[0]|] == p[0] && Join(p)[|p[0]| + 1..] == Join(p[1..])
  {
    if |p| > 1 {
      assert Join(p) == p[0] + ("/" + Join(p[1..])) by {
        assert p[0] + "/" + Join(p[1..]) == p[0] + ("/" + Join(p[1..]));
      }
      assert Join(p)[|p[0]|] == '/';
      assert forall k | 0 <= k < |p[0]| :: Join(p)[k] == p[0][k];
    }
  }

  lemma {:induction false} JoinIsInjective(p: seq<string>, q: seq<string>)
    requires SlashFree(p) && SlashFree(q) && Join(p) == Join(q)
    ensures p == q
  {
    FirstSlash(p);
    FirstSlash(q);
    assert p == [p[0]] + p[1..] && q == [q[0]] + q[1..];
    if |p| > 1 { JoinIsInjective(p[1..], q[1..]); }
  }
}
