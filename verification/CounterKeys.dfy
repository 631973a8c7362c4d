/**
  Decimal text as `strconv` writes and reads it, and the cache keys of the rate-limit counters.
  Integers are unbounded: the 64-bit range of the source is not modelled.
 */
module CounterKeys {

  predicate IsDigit(c: char) {
    '0' <= c <= '9'
  }

  function DigitChar(d: nat): char
    requires d < 10
  {
    '0' + d as char
  }

  function Digits(n: nat): (s: string)
    ensures s != "" && forall c <- s :: IsDigit(c)
  {
    if n < 10 then [DigitChar(n)] else Digits(n / 10) + [DigitChar(n % 10)]
  }

  /** `strconv.FormatInt(n, 10)`. */
  function FormatInt(n: int): (s: string)
    ensures s != "" && ':' !in s
  {
    if n < 0 then "-" + Digits(-n) else Digits(n)
  }

  function DigitsValue(s: string): nat
    requires forall c <- s :: IsDigit(c)
  {
    if s == "" then 0
    else
      var last := s[|s| - 1];
      assert IsDigit(last);
      10 * DigitsValue(s[..|s| - 1]) + (last - '0') as nat
  }

  /** The value that the callers use from `strconv.ParseInt(s, 10, 64)`: they ignore its error,
      and on a syntax error the value is zero. */
  function ParseInt(s: string): int {
    var body := if s != "" && (s[0] == '-' || s[0] == '+') then s[1..] else s;
    if body == "" || exists c <- body :: !IsDigit(c) then 0
    else if s[0] == '-' then 0 - DigitsValue(body)
    else DigitsValue(body)
  }

  lemma {:induction false} DigitsRoundTrip(n: nat)
    ensures DigitsValue(Digits(n)) == n
  {
    if n >= 10 {
      var s := Digits(n);
      DigitsRoundTrip(n / 10);
      assert s[..|s| - 1] == Digits(n / 10);
    }
  }

  /** Reading back a written counter gives the counter. */
  lemma ParseFormat(n: int)
    ensures ParseInt(FormatInt(n)) == n
  {
    var s := FormatInt(n);
    if n < 0 {
      DigitsRoundTrip(-n);
      assert s[1..] == Digits(-n);
    } else {
      DigitsRoundTrip(n);
      assert IsDigit(s[0]);
    }
  }

  // ---- Keys -------------------------------------------------------------------------

  datatype Kind = Rpm | Tpm

  datatype Scope = Global | Model | Key

  function KindName(k: Kind): (s: string)
    ensures |s| == 3 && ':' !in s
  {
    match k case Rpm => "rpm" case Tpm => "tpm"
  }

  function ScopeName(s: Scope): (n: string)
    ensures ':' !in n
  {
    match s case Global => "global" case Model => "model" case Key => "key"
  }

  const HEALTH_PROBE := "health:probe"

  /** `rpmKey` and `tpmKey`: an empty ID leaves out its segment. */
  function CounterKey(kind: Kind, scope: Scope, id: string, minute: int): string {
    if id == "" then "rl:" + KindName(kind) + ":" + ScopeName(scope) + ":" + FormatInt(minute)
    else "rl:" + KindName(kind) + ":" + ScopeName(scope) + ":" + id + ":" + FormatInt(minute)
  }

  /** What comes before the first colon. */
  function BeforeColon(s: string): string {
    if s == "" || s[0] == ':' then "" else [s[0]] + BeforeColon(s[1..])
  }

  /** Everything up to and including the last colon. */
  function ThroughLastColon(s: string): string {
    if s == "" || s[|s| - 1] == ':' then s else ThroughLastColon(s[..|s| - 1])
  }

  lemma {:induction false} BeforeColonOf(a: string, b: string)
    requires ':' !in a && (b == "" || b[0] == ':')
    ensures BeforeColon(a + b) == a
  {
    if a == "" {
      assert a + b == b;
    } else {
      BeforeColonOf(a[1..], b);
      assert (a + b)[1..] == a[1..] + b;
    }
  }

  lemma {:induction false} ThroughLastColonOf(a: string, b: string)
    requires ':' !in b
    ensures ThroughLastColon(a + ":" + b) == a + ":"
  {
    if b == "" {
      assert a + ":" + b == a + ":";
    } else {
      var n := |b| - 1;
      ThroughLastColonOf(a, b[..n]);
      assert (a + ":" + b)[..|a| + 1 + n] == a + ":" + b[..n];
      assert b[n] in b;
    }
  }

  lemma SplitAtLastColon(a: string, b: string, c: string, d: string)
    requires ':' !in b && ':' !in d && a + ":" + b == c + ":" + d
    ensures a == c && b == d
  {
    ThroughLastColonOf(a, b);
    ThroughLastColonOf(c, d);
    assert |a + ":"| == |c + ":"|;
    assert a == (a + ":")[..|a|] && c == (c + ":")[..|a|];
    assert b == (a + ":" + b)[|a| + 1..] && d == (c + ":" + d)[|a| + 1..];
  }

  function Segment(id: string): string {
    if id == "" then "" else ":" + id
  }

  lemma KeyParts(kind: Kind, scope: Scope, id: string, minute: int)
    ensures CounterKey(kind, scope, id, minute)
            == ("rl:" + KindName(kind) + ":" + (ScopeName(scope) + Segment(id))) + ":" + FormatInt(minute)
  {
  }

  /** Different counters have different keys, whatever the IDs contain. */
  lemma KeysAreInjective(k1: Kind, s1: Scope, id1: string, t1: int, k2: Kind, s2: Scope, id2: string, t2: int)
    requires CounterKey(k1, s1, id1, t1) == CounterKey(k2, s2, id2, t2)
    ensures k1 == k2 && s1 == s2 && id1 == id2 && t1 == t2
  {
    KeyParts(k1, s1, id1, t1);
    KeyParts(k2, s2, id2, t2);
    var tail1, tail2 := ScopeName(s1) + Segment(id1), ScopeName(s2) + Segment(id2);
    var head1, head2 := "rl:" + KindName(k1) + ":", "rl:" + KindName(k2) + ":";
    SplitAtLastColon(head1 + tail1, FormatInt(t1), head2 + tail2, FormatInt(t2));
    ParseFormat(t1);
    ParseFormat(t2);
    assert (head1 + tail1)[7..] == tail1 && (head2 + tail2)[7..] == tail2;
    assert (head1 + tail1)[3] == KindName(k1)[0] && (head2 + tail2)[3] == KindName(k2)[0];
    BeforeColonOf(ScopeName(s1), Segment(id1));
    BeforeColonOf(ScopeName(s2), Segment(id2));
    assert Segment(id1) == tail1[|ScopeName(s1)|..] && Segment(id2) == tail2[|ScopeName(s2)|..];
    assert id1 != "" ==> id1 == Segment(id1)[1..];
    assert id2 != "" ==> id2 == Segment(id2)[1..];
    assert ScopeName(s1)[0] == ScopeName(s2)[0];
  }

  lemma KeysAreNotTheProbe(kind: Kind, scope: Scope, id: string, minute: int)
    ensures CounterKey(kind, scope, id, minute) != HEALTH_PROBE
  {
    assert CounterKey(kind, scope, id, minute)[0] == 'r';
  }
}
