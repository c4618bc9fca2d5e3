/** String helpers both scripts rely on: Python's `str.strip()`, the decimal
    rendering of an `int` inside an f-string, joining the fragments a `+=`
    loop emits, and reading a double-quoted attribute value back. */
module Text {

  /** Python's `str.isspace()` for one character: \t \n \v \f \r, the
      separators \x1c-\x1f, space, and the Unicode space characters. */
  predicate IsSpace(c: char)
  {
    var n := c as int;
    (9 <= n <= 13) || (28 <= n <= 32) || n == 0x85 || n == 0xA0 || n == 0x1680
    || (0x2000 <= n <= 0x200A) || n == 0x2028 || n == 0x2029 || n == 0x202F
    || n == 0x205F || n == 0x3000
  }

  predicate AllSpace(s: string)
  {
    forall k :: 0 <= k < |s| ==> IsSpace(s[k])
  }

  /** No whitespace at either end. */
  predicate Stripped(s: string)
  {
    s == [] || (!IsSpace(s[0]) && !IsSpace(s[|s| - 1]))
  }

  /** Python's `str.strip()`: `s` with the whitespace at both ends cut off.
      It is empty exactly when `s` is all whitespace. */
  function Strip(s: string): (r: string)
    ensures Stripped(r)
    ensures r == [] <==> AllSpace(s)
  {
    StripProps(s);
    Trim(s, 0, |s|)
  }

  /** `s[i..j]` with whitespace cut off both ends, one character at a time:
      first from the front, then from the back. */
  function Trim(s: string, i: nat, j: nat): string
    requires i <= j <= |s|
    decreases j - i
  {
    if i < j && IsSpace(s[i]) then Trim(s, i + 1, j)
    else if i < j && IsSpace(s[j - 1]) then Trim(s, i, j - 1)
    else Between(s, i, j)
  }

  /** The characters of `s` from position `i` up to, not including, `j`,
      gathered one at a time. */
  function Between(s: string, i: nat, j: nat): (r: string)
    requires i <= j <= |s|
    ensures |r| == j - i
  {
    if i == j then [] else Between(s, i, j - 1) + [s[j - 1]]
  }

  /** Character `k` of `Between(s, i, j)` is character `i + k` of `s`. */
  lemma {:induction false} BetweenAt(s: string, i: nat, j: nat, k: nat)
    requires i <= j <= |s| && k < j - i
    ensures Between(s, i, j)[k] == s[i + k]
  {
    if k < j - 1 - i {
      BetweenAt(s, i, j - 1, k);
    }
  }

  /** `Between` is the slice `s[i..j]`. */
  lemma BetweenSlice(s: string, i: nat, j: nat)
    requires i <= j <= |s|
    ensures Between(s, i, j) == s[i..j]
  {
    forall k | 0 <= k < j - i
      ensures Between(s, i, j)[k] == s[i..j][k]
    {
      BetweenAt(s, i, j, k);
    }
  }

  /** `Trim` keeps the piece `s[a..b]` of `s[i..j]`; what it cuts off is
      whitespace, and what it keeps starts and ends with a non-whitespace
      character. */
  lemma {:induction false} TrimBounds(s: string, i: nat, j: nat) returns (a: nat, b: nat)
    requires i <= j <= |s|
    ensures i <= a <= b <= j && Trim(s, i, j) == s[a..b]
    ensures forall k :: i <= k < a ==> IsSpace(s[k])
    ensures forall k :: b <= k < j ==> IsSpace(s[k])
    ensures a < b ==> !IsSpace(s[a]) && !IsSpace(s[b - 1])
    ensures a == b ==> forall k :: i <= k < j ==> IsSpace(s[k])
    decreases j - i
  {
    if i < j && IsSpace(s[i]) {
      a, b := TrimBounds(s, i + 1, j);
    } else if i < j && IsSpace(s[j - 1]) {
      a, b := TrimBounds(s, i, j - 1);
    } else {
      a, b := i, j;
      BetweenSlice(s, i, j);
    }
  }

  lemma StripProps(s: string)
    ensures Stripped(Trim(s, 0, |s|))
    ensures Trim(s, 0, |s|) == [] <==> AllSpace(s)
  {
    var a, b := TrimBounds(s, 0, |s|);
    var r := Trim(s, 0, |s|);
    if a < b {
      assert r[0] == s[a] && r[|r| - 1] == s[b - 1];
      assert !IsSpace(s[a]);
      assert !AllSpace(s);
    } else {
      assert r == [];
      assert AllSpace(s);
    }
  }

  /** What `Strip` keeps is one contiguous piece of `s`, and everything it
      cuts off on either side is whitespace. */
  lemma StripTrims(s: string)
    ensures exists i ::
              0 <= i <= |s| - |Strip(s)| && Strip(s) == s[i..i + |Strip(s)|]
              && AllSpace(s[..i]) && AllSpace(s[i + |Strip(s)|..])
  {
    var i, j := TrimBounds(s, 0, |s|);
    assert Strip(s) == s[i..j];
    assert AllSpace(s[..i]);
    assert AllSpace(s[j..]);
    assert 0 <= i <= |s| - |Strip(s)| && Strip(s) == s[i..i + |Strip(s)|]
           && AllSpace(s[..i]) && AllSpace(s[i + |Strip(s)|..]);
  }

  /** Stripping an already stripped string changes nothing. */
  lemma StripStripped(s: string)
    requires Stripped(s)
    ensures Strip(s) == s
  {
    if s != [] {
      assert Trim(s, 0, |s|) == Between(s, 0, |s|);
      BetweenSlice(s, 0, |s|);
      assert s[0..|s|] == s;
    }
  }

  /** The fragments joined in order, as a loop of `+=` builds them. */
  function Concat(parts: seq<string>): string
  {
    ConcatUpTo(parts, |parts|)
  }

  /** The first `n` fragments joined. */
  function ConcatUpTo(parts: seq<string>, n: nat): string
    requires n <= |parts|
  {
    if n == 0 then "" else ConcatUpTo(parts, n - 1) + parts[n - 1]
  }

  /** Fragment lists that agree on their first `n` fragments join them alike. */
  lemma {:induction false} ConcatSamePrefix(x: seq<string>, y: seq<string>, n: nat)
    requires n <= |x| && n <= |y|
    requires forall i :: 0 <= i < n ==> x[i] == y[i]
    ensures ConcatUpTo(x, n) == ConcatUpTo(y, n)
  {
    if n > 0 {
      ConcatSamePrefix(x, y, n - 1);
    }
  }

  /** Joining `c`, the fragments of `a` followed by those of `b`, up to
      fragment `m` of `b`. */
  lemma {:induction false} ConcatJoin(c: seq<string>, a: seq<string>, b: seq<string>, m: nat)
    requires |c| == |a| + |b| && m <= |b|
    requires forall i :: 0 <= i < |a| ==> c[i] == a[i]
    requires forall i :: 0 <= i < |b| ==> c[|a| + i] == b[i]
    ensures ConcatUpTo(c, |a| + m) == Concat(a) + ConcatUpTo(b, m)
  {
    if m == 0 {
      ConcatSamePrefix(c, a, |a|);
      AppendEmpty(Concat(a));
    } else {
      ConcatJoin(c, a, b, m - 1);
      ConcatJoinStep(c, a, b, m);
    }
  }

  lemma ConcatJoinStep(c: seq<string>, a: seq<string>, b: seq<string>, m: nat)
    requires |c| == |a| + |b| && 0 < m <= |b| && c[|a| + m - 1] == b[m - 1]
    requires ConcatUpTo(c, |a| + (m - 1)) == Concat(a) + ConcatUpTo(b, m - 1)
    ensures ConcatUpTo(c, |a| + m) == Concat(a) + ConcatUpTo(b, m)
  {
    assert ConcatUpTo(c, |a| + m) == ConcatUpTo(c, |a| + m - 1) + b[m - 1];
    Assoc(Concat(a), ConcatUpTo(b, m - 1), b[m - 1]);
  }

  /** Joining two lists of fragments one after the other. */
  lemma ConcatAppend(a: seq<string>, b: seq<string>)
    ensures Concat(a + b) == Concat(a) + Concat(b)
  {
    ConcatJoin(a + b, a, b, |b|);
  }

  lemma AppendEmpty(a: string)
    ensures a + "" == a
  {
  }

  lemma Assoc(a: string, b: string, c: string)
    ensures (a + b) + c == a + (b + c)
  {
  }

  /** Fragment `k` sits between the join of those before it and the join
      of those after it. */
  lemma ConcatAt(parts: seq<string>, k: nat)
    requires k < |parts|
    ensures Concat(parts) == Concat(parts[..k]) + parts[k] + Concat(parts[k + 1..])
  {
    var front, back := parts[..k + 1], parts[k + 1..];
    ConcatJoin(parts, front, back, |back|);
    ConcatSamePrefix(front, parts[..k], k);
    assert Concat(front) == Concat(parts[..k]) + parts[k];
  }

  /** The same, inside a fixed frame of text before and after. */
  lemma ConcatFramed(pre: string, parts: seq<string>, post: string, k: nat)
    requires k < |parts|
    ensures pre + Concat(parts) + post
            == pre + Concat(parts[..k]) + parts[k] + Concat(parts[k + 1..]) + post
  {
    ConcatAt(parts, k);
    var before, after := Concat(parts[..k]), Concat(parts[k + 1..]);
    Assoc(pre, before + parts[k], after);
    Assoc(pre, before, parts[k]);
  }

  /** `b` is what closes `a + b`. */
  lemma EndsWith(a: string, b: string)
    ensures |a + b| >= |b| && (a + b)[|a + b| - |b|..] == b
  {
  }

  function Digit(d: nat): (c: char)
    requires d < 10
  {
    (48 + d) as char
  }

  /** How an f-string renders a non-negative `int`: decimal, no leading zeros. */
  function Decimal(n: nat): (s: string)
    ensures 1 <= |s|
    ensures forall k :: 0 <= k < |s| ==> '0' <= s[k] <= '9'
    ensures n < 10 <==> |s| == 1
  {
    if n < 10 then [Digit(n)] else Decimal(n / 10) + [Digit(n % 10)]
  }

  /** Different numbers render differently. */
  lemma {:induction false} DecimalInjective(m: nat, n: nat)
    requires Decimal(m) == Decimal(n)
    ensures m == n
    decreases n
  {
    if n < 10 {
      assert Decimal(m)[0] == Digit(m);
    } else {
      var dm, dn := Decimal(m), Decimal(n);
      assert dm[|dm| - 1] == Digit(m % 10);
      assert dn[|dn| - 1] == Digit(n % 10);
      assert dm[..|dm| - 1] == Decimal(m / 10);
      assert dn[..|dn| - 1] == Decimal(n / 10);
      DecimalInjective(m / 10, n / 10);
    }
  }

  /** The characters of `s` up to, not including, its first double quote:
      what a browser takes as the value of an attribute that starts at `s`. */
  function UntilQuote(s: string): (r: string)
    ensures |r| <= |s| && r == s[..|r|]
    ensures '"' !in r
  {
    if s == [] || s[0] == '"' then [] else [s[0]] + UntilQuote(s[1..])
  }

  /** A value without quotes, closed by a quote, is read back whole. */
  lemma {:induction false} UntilQuoteReads(x: string, tail: string)
    requires '"' !in x && tail != [] && tail[0] == '"'
    ensures UntilQuote(x + tail) == x
  {
    if x != [] {
      assert (x + tail)[1..] == x[1..] + tail;
      UntilQuoteReads(x[1..], tail);
    } else {
      assert x + tail == tail;
    }
  }

  /** Once a quote closes `x`, whatever follows does not change what is read. */
  lemma {:induction false} UntilQuoteClosed(x: string, tail1: string, tail2: string)
    requires tail1 != [] && tail1[0] == '"'
    requires tail2 != [] && tail2[0] == '"'
    ensures UntilQuote(x + tail1) == UntilQuote(x + tail2)
  {
    if x != [] {
      assert (x + tail1)[1..] == x[1..] + tail1;
      assert (x + tail2)[1..] == x[1..] + tail2;
      UntilQuoteClosed(x[1..], tail1, tail2);
    } else {
      assert x + tail1 == tail1 && x + tail2 == tail2;
    }
  }
}
