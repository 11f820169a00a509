/**
 * Edge keys of the graph editor: the string `"<id1>-<id2>"` built from the
 * decimal `dataset.id` of two nodes (static/js/network.js:50-52), and its parse
 * back into a pair of ints by splitting on `-` (app.py:39).
 */
module EdgeKeys {
  import opened Wrappers

  predicate IsDigit(c: char) { '0' <= c <= '9' }

  predicate AllDigits(s: string) { forall i | 0 <= i < |s| :: IsDigit(s[i]) }

  function DigitChar(d: nat): (c: char)
    requires d < 10
    ensures IsDigit(c)
  {
    ('0' as int + d) as char
  }

  function DigitValue(c: char): (d: nat)
    requires IsDigit(c)
    ensures d < 10 && DigitChar(d) == c
  {
    c as int - '0' as int
  }

  /** Decimal rendering of a node id, as JavaScript's String(i): no sign, no leading zeros. */
  function NatToString(n: nat): (s: string)
    ensures |s| > 0 && AllDigits(s)
    ensures s[0] == '0' ==> n == 0
  {
    if n < 10 then [DigitChar(n)] else NatToString(n / 10) + [DigitChar(n % 10)]
  }

  /** Value of a non-empty string of decimal digits, as Python's int() reads it. */
  function DigitsValue(s: string): nat
    requires AllDigits(s)
  {
    if s == [] then 0 else DigitsValue(s[..|s| - 1]) * 10 + DigitValue(s[|s| - 1])
  }

  lemma {:induction false} ParseRender(n: nat)
    ensures DigitsValue(NatToString(n)) == n
  {
    if n >= 10 {
      var s := NatToString(n);
      assert s[..|s| - 1] == NatToString(n / 10);
      ParseRender(n / 10);
    }
  }

  lemma RenderInjective(m: nat, n: nat)
    requires NatToString(m) == NatToString(n)
    ensures m == n
  {
    ParseRender(m);
    ParseRender(n);
  }

  /** The key under which `drawEdge(node1, node2)` stores an edge. */
  function Key(a: nat, b: nat): string
  {
    NatToString(a) + "-" + NatToString(b)
  }

  /** Python's `str.split(sep)` for a one-character separator. */
  function Split(s: string, sep: char): (parts: seq<string>)
    ensures |parts| > 0
    ensures forall i | 0 <= i < |parts| :: sep !in parts[i]
  {
    if s == [] then [""]
    else if s[0] == sep then [""] + Split(s[1..], sep)
    else
      var rest := Split(s[1..], sep);
      [[s[0]] + rest[0]] + rest[1..]
  }

  lemma {:induction false} SplitWithoutSep(s: string, sep: char)
    requires sep !in s
    ensures Split(s, sep) == [s]
  {
    if s != [] {
      SplitWithoutSep(s[1..], sep);
      assert [s[0]] + s[1..] == s;
    }
  }

  lemma {:induction false} SplitAtSep(x: string, y: string, sep: char)
    requires sep !in x
    ensures Split(x + [sep] + y, sep) == [x] + Split(y, sep)
  {
    if x == [] {
      assert x + [sep] + y == [sep] + y;
    } else {
      assert (x + [sep] + y)[0] == x[0] && (x + [sep] + y)[1..] == x[1..] + [sep] + y;
      SplitAtSep(x[1..], y, sep);
      assert [x[0]] + x[1..] == x;
    }
  }

  /** `tuple(map(int, key.split("-")))` on the keys the editor produces: two digit strings. */
  function ParseKey(k: string): Option<(nat, nat)>
  {
    var parts := Split(k, '-');
    if |parts| == 2 && |parts[0]| > 0 && AllDigits(parts[0]) && |parts[1]| > 0 && AllDigits(parts[1])
    then Some((DigitsValue(parts[0]), DigitsValue(parts[1])))
    else None
  }

  lemma NoDashInRender(n: nat)
    ensures '-' !in NatToString(n)
  {
    var s := NatToString(n);
    assert forall i | 0 <= i < |s| :: s[i] != '-';
  }

  /** Splitting a key on `-` recovers both ids. */
  lemma KeyRoundTrip(a: nat, b: nat)
    ensures ParseKey(Key(a, b)) == Some((a, b))
  {
    NoDashInRender(a);
    NoDashInRender(b);
    SplitAtSep(NatToString(a), NatToString(b), '-');
    SplitWithoutSep(NatToString(b), '-');
    ParseRender(a);
    ParseRender(b);
  }

  lemma KeyInjective(a: nat, b: nat, c: nat, d: nat)
    requires Key(a, b) == Key(c, d)
    ensures a == c && b == d
  {
    KeyRoundTrip(a, b);
    KeyRoundTrip(c, d);
  }

  predicate StartsWith(s: string, prefix: string) { prefix <= s }

  predicate EndsWith(s: string, suffix: string)
  {
    |suffix| <= |s| && s[|s| - |suffix|..] == suffix
  }

  /** The test `removeEdges` applies to each key: it starts with `x-` or ends with `-x`. */
  predicate HasEndpoint(k: string, x: nat)
  {
    StartsWith(k, NatToString(x) + "-") || EndsWith(k, "-" + NatToString(x))
  }

  /** The only `-` in a key is the separator. */
  lemma DashOnlySeparator(a: nat, b: nat, i: int)
    requires 0 <= i < |Key(a, b)| && Key(a, b)[i] == '-'
    ensures i == |NatToString(a)|
  {
    var sa, sb, k := NatToString(a), NatToString(b), Key(a, b);
    forall j | 0 <= j < |k| && j != |sa|
      ensures IsDigit(k[j])
    {
      if j < |sa| {
        assert k[j] == sa[j];
      } else {
        assert k[j] == sb[j - |sa| - 1];
      }
    }
  }

  lemma PrefixExact(a: nat, b: nat, x: nat)
    ensures StartsWith(Key(a, b), NatToString(x) + "-") <==> a == x
  {
    var sa, sx := NatToString(a), NatToString(x);
    var k, p := Key(a, b), sx + "-";
    if p <= k {
      assert k[|sx|] == p[|sx|] == '-';
      DashOnlySeparator(a, b, |sx|);
      assert sx == p[..|sx|] == k[..|sa|] == sa;
      RenderInjective(a, x);
    }
  }

  lemma SuffixExact(a: nat, b: nat, x: nat)
    ensures EndsWith(Key(a, b), "-" + NatToString(x)) <==> b == x
  {
    var sa, sb, sx := NatToString(a), NatToString(b), NatToString(x);
    var k, q := Key(a, b), "-" + sx;
    if EndsWith(k, q) {
      var off := |k| - |q|;
      assert k[off..] == q;
      assert k[off] == q[0] == '-';
      DashOnlySeparator(a, b, off);
      assert sx == q[1..] == k[|sa| + 1..] == sb;
      RenderInjective(b, x);
    }
  }

  /** Prefix `x-` / suffix `-x` matching is exact for decimal ids. */
  lemma HasEndpointExact(a: nat, b: nat, x: nat)
    ensures HasEndpoint(Key(a, b), x) <==> a == x || b == x
  {
    PrefixExact(a, b, x);
    SuffixExact(a, b, x);
  }
}
