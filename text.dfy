/** String helpers the verifier relies on: Go's strings.Split with a
    one-character separator, its inverse (joining with the separator), and
    the decimal rendering of integers that fmt's %d produces. */
module Text {

  /** strings.Split(s, string(sep)): the pieces between separators, in order.
      Like Go, an empty string gives one empty piece. */
  function Split(s: string, sep: char): (parts: seq<string>)
    ensures |parts| >= 1
  {
    if |s| == 0 then [[]]
    else
      var rest := Split(s[1..], sep);
      if s[0] == sep then [[]] + rest
      else [[s[0]] + rest[0]] + rest[1..]
  }

  /** Joins at least one piece, putting sep between neighbours (strings.Join). */
  function Join(parts: seq<string>, sep: char): string
    requires |parts| >= 1
  {
    if |parts| == 1 then parts[0]
    else Join(parts[..|parts| - 1], sep) + [sep] + parts[|parts| - 1]
  }

  lemma ConcatAssoc<T>(a: seq<T>, b: seq<T>, c: seq<T>)
    ensures (a + b) + c == a + (b + c)
  {
  }

  /** Split yields one piece more than there are separators. */
  lemma {:induction false} SplitCount(s: string, sep: char)
    ensures |Split(s, sep)| == multiset(s)[sep] + 1
  {
    if s != [] {
      SplitCount(s[1..], sep);
      assert s == [s[0]] + s[1..];
      assert multiset(s) == multiset([s[0]]) + multiset(s[1..]);
    }
  }

  /** A string is one piece exactly when it holds no separator. */
  lemma SplitFewerThanTwo(s: string, sep: char)
    ensures |Split(s, sep)| < 2 <==> sep !in s
  {
    SplitCount(s, sep);
    assert sep in s <==> sep in multiset(s);
  }

  lemma {:induction false} SplitNoSeparator(s: string, sep: char)
    requires sep !in s
    ensures Split(s, sep) == [s]
  {
    if s != [] {
      assert s == [s[0]] + s[1..];
      SplitNoSeparator(s[1..], sep);
    }
  }

  /** Split of a string given as its first character and the rest. */
  lemma SplitCons(c: char, t: string, sep: char)
    ensures Split([c] + t, sep) ==
      if c == sep then [[]] + Split(t, sep) else [[c] + Split(t, sep)[0]] + Split(t, sep)[1..]
  {
    assert ([c] + t)[0] == c && ([c] + t)[1..] == t;
  }

  /** Splitting around a separator splits each side independently. */
  lemma {:induction false} SplitAround(a: string, b: string, sep: char)
    ensures Split(a + [sep] + b, sep) == Split(a, sep) + Split(b, sep)
  {
    if a == [] {
      assert a + [sep] + b == [sep] + b;
      SplitCons(sep, b, sep);
    } else {
      var c, t := a[0], a[1..];
      assert a == [c] + t;
      SplitAround(t, b, sep);
      assert a + [sep] + b == [c] + (t + [sep] + b);
      SplitPrepend(c, t + [sep] + b, t, b, sep);
    }
  }

  /** Putting a character in front of x and of t keeps the split of x the
      split of t followed by the split of b. */
  lemma SplitPrepend(c: char, x: string, t: string, b: string, sep: char)
    requires Split(x, sep) == Split(t, sep) + Split(b, sep)
    ensures Split([c] + x, sep) == Split([c] + t, sep) + Split(b, sep)
  {
    var head, tail := Split(t, sep), Split(b, sep);
    if c != sep {
      SplitConsOther(c, x, sep);
      SplitConsOther(c, t, sep);
      PrependToHead(c, Split(x, sep), head, tail);
    } else {
      SplitConsSep(c, x, sep);
      SplitConsSep(c, t, sep);
      ConcatAssoc([[]], head, tail);
    }
  }

  lemma SplitConsSep(c: char, t: string, sep: char)
    requires c == sep
    ensures Split([c] + t, sep) == [[]] + Split(t, sep)
  {
    SplitCons(c, t, sep);
  }

  lemma SplitConsOther(c: char, t: string, sep: char)
    requires c != sep
    ensures Split([c] + t, sep) == [[c] + Split(t, sep)[0]] + Split(t, sep)[1..]
  {
    SplitCons(c, t, sep);
  }

  lemma PrependToHead(c: char, parts: seq<string>, head: seq<string>, tail: seq<string>)
    requires |head| >= 1 && parts == head + tail
    ensures [[c] + parts[0]] + parts[1..] == ([[c] + head[0]] + head[1..]) + tail
  {
    assert parts[0] == head[0];
    assert parts[1..] == head[1..] + tail;
  }

  /** Splitting a join of separator-free pieces gives the pieces back. */
  lemma {:induction false} SplitJoin(parts: seq<string>, sep: char)
    requires |parts| >= 1
    requires forall i :: 0 <= i < |parts| ==> sep !in parts[i]
    ensures Split(Join(parts, sep), sep) == parts
  {
    var n := |parts|;
    if n == 1 {
      SplitNoSeparator(parts[0], sep);
    } else {
      var init := parts[..n - 1];
      SplitJoin(init, sep);
      SplitAround(Join(init, sep), parts[n - 1], sep);
      SplitNoSeparator(parts[n - 1], sep);
      assert init + [parts[n - 1]] == parts;
    }
  }

  lemma {:induction false} JoinExtendHead(x: char, parts: seq<string>, sep: char)
    requires |parts| >= 1
    ensures Join([[x] + parts[0]] + parts[1..], sep) == [x] + Join(parts, sep)
  {
    var n := |parts|;
    if n > 1 {
      var longer := [[x] + parts[0]] + parts[1..];
      var init := parts[..n - 1];
      JoinExtendHead(x, init, sep);
      assert longer[..n - 1] == [[x] + init[0]] + init[1..];
    }
  }

  lemma {:induction false} JoinEmptyHead(parts: seq<string>, sep: char)
    requires |parts| >= 1
    ensures Join([[]] + parts, sep) == [sep] + Join(parts, sep)
  {
    var n := |parts|;
    if n > 1 {
      var init := parts[..n - 1];
      JoinEmptyHead(init, sep);
      assert ([[]] + parts)[..n] == [[]] + init;
    }
  }

  /** Joining the pieces of a split gives the original string back. */
  lemma {:induction false} JoinSplit(s: string, sep: char)
    ensures Join(Split(s, sep), sep) == s
  {
    if s != [] {
      var rest := Split(s[1..], sep);
      JoinSplit(s[1..], sep);
      if s[0] == sep {
        JoinEmptyHead(rest, sep);
      } else {
        JoinExtendHead(s[0], rest, sep);
      }
    }
  }

  function Digit(d: nat): char
    requires d < 10
  {
    ('0' as int + d) as char
  }

  /** The decimal digits of n, most significant first, with no leading zero. */
  function NatToString(n: nat): (s: string)
    ensures |s| >= 1
    ensures forall i :: 0 <= i < |s| ==> '0' <= s[i] <= '9'
  {
    if n < 10 then [Digit(n)] else NatToString(n / 10) + [Digit(n % 10)]
  }

  /** fmt's %d: a minus sign before the digits of a negative number. */
  function IntToString(i: int): (s: string)
    ensures '\n' !in s
    ensures |s| >= 1 && (s[0] == '-') == (i < 0)
  {
    if i < 0 then "-" + NatToString(-i) else NatToString(i)
  }

  /** Reads a string of decimal digits back as a number. */
  function DecimalValue(s: string): nat
    requires forall i :: 0 <= i < |s| ==> '0' <= s[i] <= '9'
  {
    if s == [] then 0
    else DecimalValue(s[..|s| - 1]) * 10 + (s[|s| - 1] as int - '0' as int)
  }

  /** The rendering of a number loses nothing: its digits read back as it. */
  lemma {:induction false} DecimalRoundTrip(n: nat)
    ensures DecimalValue(NatToString(n)) == n
  {
    if n >= 10 {
      DecimalRoundTrip(n / 10);
      var s := NatToString(n);
      assert s[..|s| - 1] == NatToString(n / 10);
    }
  }

  /** Whether s is what %d prints: an optional minus sign, then digits. */
  predicate SignedDecimal(s: string) {
    && |s| >= 1
    && forall k :: (if s[0] == '-' then 1 else 0) <= k < |s| ==> '0' <= s[k] <= '9'
  }

  /** Reads the output of %d back as a number. */
  function SignedValue(s: string): int
    requires SignedDecimal(s)
  {
    if s[0] == '-' then -(DecimalValue(s[1..]) as int) else DecimalValue(s)
  }

  /** The %d rendering of any integer, negative ones included, reads back
      as that integer. */
  lemma IntToStringRoundTrip(i: int)
    ensures SignedDecimal(IntToString(i))
    ensures SignedValue(IntToString(i)) == i
  {
    var s := IntToString(i);
    if i < 0 {
      assert s[1..] == NatToString(-i);
      DecimalRoundTrip(-i);
    } else {
      DecimalRoundTrip(i);
    }
  }
}
