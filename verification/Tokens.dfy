/** Key tokens and their dotted rendering. */
module Tokens {

  predicate IsTokenChar(c: char) {
    'a' <= c <= 'z' || 'A' <= c <= 'Z' || '0' <= c <= '9' || c == '=' || c == '_' || c == '-'
  }

  predicate ValidToken(s: string) {
    s != "" && forall c <- s :: IsTokenChar(c)
  }

  /** What may stand between two dots of a key. */
  type Token = s: string | ValidToken(s) witness "a"

  function Join(ts: seq<string>): string
    requires ts != []
  {
    if |ts| == 1 then ts[0] else ts[0] + "." + Join(ts[1..])
  }

  function FirstDot(s: string): (i: nat)
    ensures i <= |s|
    ensures forall k :: 0 <= k < i ==> s[k] != '.'
    ensures i < |s| ==> s[i] == '.'
  {
    if s == "" || s[0] == '.' then 0
    else
      1 + FirstDot(s[1..])
  }

  /** strings.Split(s, ".") */
  function Split(s: string): (ts: seq<string>)
    ensures ts != []
    decreases |s|
  {
    var i := FirstDot(s);
    if i == |s| then [s] else [s[..i]] + Split(s[i + 1..])
  }

  lemma FirstDotIs(s: string, i: nat)
    requires i <= |s| && (forall k :: 0 <= k < i ==> s[k] != '.') && (i < |s| ==> s[i] == '.')
    ensures FirstDot(s) == i
  {
  }

  lemma {:induction false} SplitJoin(ts: seq<string>)
    requires ts != [] && forall t <- ts :: '.' !in t
    ensures Split(Join(ts)) == ts
  {
    var s := Join(ts);
    assert '.' !in ts[0];
    if |ts| == 1 {
      FirstDotIs(s, |s|);
    } else {
      assert s[|ts[0]|] == '.';
      FirstDotIs(s, |ts[0]|);
      assert s[..|ts[0]|] == ts[0] && s[|ts[0]| + 1..] == Join(ts[1..]);
      SplitJoin(ts[1..]);
    }
  }

  lemma TokenHasNoDot(t: Token)
    ensures '.' !in t
  {
  }

  /** Decimal rendering of a counter. */
  function Decimal(n: nat): (s: string)
    ensures ValidToken(s)
  {
    var digit := [('0' as int + n % 10) as char];
    if n < 10 then digit else Decimal(n / 10) + digit
  }

  function Value(s: string): nat {
    if s == "" then 0
    else
      var d := s[|s| - 1] as int - '0' as int;
      10 * Value(s[..|s| - 1]) + if 0 <= d then d else 0
  }

  lemma {:induction false} ValueOfDecimal(n: nat)
    ensures Value(Decimal(n)) == n
  {
    var s := Decimal(n);
    assert s[|s| - 1] == ('0' as int + n % 10) as char;
    if n < 10 {
      assert s[..|s| - 1] == "";
    } else {
      assert s[..|s| - 1] == Decimal(n / 10);
      ValueOfDecimal(n / 10);
    }
  }

  /** fmt.Sprintf("name%d", n) */
  function GeneratedName(n: nat): (s: string)
    ensures ValidToken(s)
  {
    "name" + Decimal(n)
  }

  ghost predicate IsGenerated(s: string) {
    exists n: nat :: s == GeneratedName(n)
  }

  lemma GeneratedNamesDiffer(m: nat, n: nat)
    requires GeneratedName(m) == GeneratedName(n)
    ensures m == n
  {
    assert GeneratedName(m)[4..] == Decimal(m) && GeneratedName(n)[4..] == Decimal(n);
    ValueOfDecimal(m);
    ValueOfDecimal(n);
  }
}
