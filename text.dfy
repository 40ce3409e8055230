/** String helpers with Python's semantics: `str.split` with a non-empty
    separator, `str.join`, the `in` substring test, `str(int)` and the
    code-point order Python uses to compare strings. */
module Text {

  /** `sub` occurs in `s` starting at index `i`. */
  predicate OccursAt(s: string, sub: string, i: nat)
  {
    i + |sub| <= |s| && s[i..i + |sub|] == sub
  }

  /** `sub in s` */
  predicate Contains(s: string, sub: string)
  {
    exists i: nat :: i <= |s| && OccursAt(s, sub, i)
  }

  /** `s.split(sep)`: the pieces between the non-overlapping occurrences of
      `sep`, scanning from the left. */
  function Split(s: string, sep: string): (r: seq<string>)
    requires |sep| > 0
    ensures |r| >= 1
    decreases |s|
  {
    if |s| < |sep| then [s]
    else if s[..|sep|] == sep then [""] + Split(s[|sep|..], sep)
    else
      var rest := Split(s[1..], sep);
      [[s[0]] + rest[0]] + rest[1..]
  }

  lemma AppendAssoc<T>(a: seq<T>, b: seq<T>, c: seq<T>)
    ensures a + (b + c) == a + b + c
  {
  }

  /** `sep.join(parts)` */
  function Join(parts: seq<string>, sep: string): string
  {
    if |parts| == 0 then ""
    else if |parts| == 1 then parts[0]
    else parts[0] + sep + Join(parts[1..], sep)
  }

  /** Joining one more piece appends the separator and that piece. */
  lemma {:induction false} JoinSnoc(parts: seq<string>, x: string, sep: string)
    requires |parts| > 0
    ensures Join(parts + [x], sep) == Join(parts, sep) + sep + x
    decreases |parts|
  {
    if |parts| == 1 {
      assert (parts + [x])[1..] == [x];
    } else {
      assert (parts + [x])[1..] == parts[1..] + [x];
      JoinSnoc(parts[1..], x, sep);
    }
  }

  /** Joining the pieces of a split gives back the original string. */
  lemma {:induction false} JoinSplit(s: string, sep: string)
    requires |sep| > 0
    ensures Join(Split(s, sep), sep) == s
    decreases |s|
  {
    if |s| < |sep| {
    } else if s[..|sep|] == sep {
      JoinSplit(s[|sep|..], sep);
      JoinSplitAtSep(s, sep);
    } else {
      JoinSplit(s[1..], sep);
      JoinSplitAtChar(s, sep);
    }
  }

  /** Joining a list with a known first piece. */
  lemma JoinCons(x: string, tail: seq<string>, sep: string)
    ensures |tail| == 0 ==> Join([x] + tail, sep) == x
    ensures |tail| > 0 ==> Join([x] + tail, sep) == x + sep + Join(tail, sep)
  {
    assert ([x] + tail)[0] == x;
    assert ([x] + tail)[1..] == tail;
  }

  /** Prepending a character to the first piece prepends it to the join. */
  lemma JoinConsHead(c: char, rest: seq<string>, sep: string)
    requires |rest| > 0
    ensures Join([[c] + rest[0]] + rest[1..], sep) == [c] + Join(rest, sep)
  {
    JoinCons([c] + rest[0], rest[1..], sep);
    assert rest == [rest[0]] + rest[1..];
    JoinCons(rest[0], rest[1..], sep);
    if |rest| > 1 {
      AppendAssoc([c], rest[0] + sep, Join(rest[1..], sep));
      AppendAssoc([c], rest[0], sep);
    }
  }

  /** The step of `JoinSplit` when `s` starts with the separator. */
  lemma JoinSplitAtSep(s: string, sep: string)
    requires |sep| > 0 && |s| >= |sep| && s[..|sep|] == sep
    requires Join(Split(s[|sep|..], sep), sep) == s[|sep|..]
    ensures Join(Split(s, sep), sep) == s
  {
    var rest := Split(s[|sep|..], sep);
    assert Split(s, sep) == [""] + rest;
    JoinCons("", rest, sep);
    assert "" + sep == sep;
    assert s == s[..|sep|] + s[|sep|..];
  }

  /** The step of `JoinSplit` when `s` does not start with the separator. */
  lemma JoinSplitAtChar(s: string, sep: string)
    requires |sep| > 0 && |s| >= |sep| && s[..|sep|] != sep
    requires Join(Split(s[1..], sep), sep) == s[1..]
    ensures Join(Split(s, sep), sep) == s
  {
    var rest := Split(s[1..], sep);
    assert Split(s, sep) == [[s[0]] + rest[0]] + rest[1..];
    JoinConsHead(s[0], rest, sep);
    assert s == [s[0]] + s[1..];
  }

  /** A string in which the first character of the separator never occurs
      is a single piece. */
  lemma {:induction false} SplitWithout(p: string, sep: string)
    requires |sep| > 0 && sep[0] !in p
    ensures Split(p, sep) == [p]
    decreases |p|
  {
    if |p| >= |sep| {
      assert p[0] != sep[0];
      assert p[..|sep|] != sep;
      SplitWithout(p[1..], sep);
      assert p == [p[0]] + p[1..];
    }
  }

  /** Splitting `p + sep + t`, where `p` holds no character that starts
      the separator, cuts exactly after `p`. */
  lemma {:induction false} SplitAfter(p: string, sep: string, t: string)
    requires |sep| > 0 && sep[0] !in p
    ensures Split(p + sep + t, sep) == [p] + Split(t, sep)
    decreases |p|
  {
    var s := p + sep + t;
    if |p| == 0 {
      assert s[..|sep|] == sep;
      assert s[|sep|..] == t;
    } else {
      assert s[0] == p[0] != sep[0];
      assert s[..|sep|] != sep;
      assert s[1..] == p[1..] + sep + t;
      SplitAfter(p[1..], sep, t);
      assert p == [p[0]] + p[1..];
    }
  }

  /** Splitting a joined list gives the list back, when no piece contains
      the first character of the separator. */
  lemma {:induction false} SplitJoin(parts: seq<string>, sep: string)
    requires |sep| > 0 && |parts| > 0
    requires forall i :: 0 <= i < |parts| ==> sep[0] !in parts[i]
    ensures Split(Join(parts, sep), sep) == parts
    decreases |parts|
  {
    if |parts| == 1 {
      SplitWithout(parts[0], sep);
    } else {
      SplitJoin(parts[1..], sep);
      SplitAfter(parts[0], sep, Join(parts[1..], sep));
      assert parts == [parts[0]] + parts[1..];
    }
  }

  /** With a one-character separator, a split distributes over a
      concatenation around that character. */
  lemma {:induction false} SplitConcat(x: string, c: char, y: string)
    ensures Split(x + [c] + y, [c]) == Split(x, [c]) + Split(y, [c])
    decreases |x|
  {
    var s := x + [c] + y;
    if |x| == 0 {
      assert s[..1] == [c];
      assert s[1..] == y;
    } else if x[0] == c {
      assert s[..1] == [c];
      assert s[1..] == x[1..] + [c] + y;
      SplitConcat(x[1..], c, y);
      assert x[..1] == [c];
    } else {
      assert s[0] == x[0];
      assert s[..1] != [c];
      assert s[1..] == x[1..] + [c] + y;
      SplitConcat(x[1..], c, y);
      assert x[..1] != [c];
      var a := Split(x[1..], [c]);
      assert Split(s[1..], [c])[0] == a[0];
    }
  }

  /** No piece of a split on a single character contains that character. */
  lemma {:induction false} SplitPiecesAvoid(s: string, c: char)
    ensures forall i :: 0 <= i < |Split(s, [c])| ==> c !in Split(s, [c])[i]
    decreases |s|
  {
    if |s| >= 1 {
      SplitPiecesAvoid(s[1..], c);
      if s[..1] == [c] {
        assert Split(s, [c]) == [""] + Split(s[1..], [c]);
      } else {
        var rest := Split(s[1..], [c]);
        assert s[0] != c;
        assert Split(s, [c]) == [[s[0]] + rest[0]] + rest[1..];
      }
    }
  }

  /** The first piece of a split on one character: the text before the
      first occurrence, or the whole string when there is none. */
  lemma SplitHead(s: string, c: char)
    ensures c !in s ==> Split(s, [c]) == [s]
    ensures c in s ==> (|Split(s, [c])| >= 2 &&
      exists i :: (0 <= i < |s| && s[i] == c && c !in s[..i] &&
                   Split(s, [c])[0] == s[..i] && Split(s, [c])[1..] == Split(s[i + 1..], [c])))
  {
    if c !in s {
      SplitWithout(s, [c]);
    } else {
      var i := IndexOf(s, c);
      assert s == s[..i] + [c] + s[i + 1..];
      assert c !in s[..i];
      SplitAfter(s[..i], [c], s[i + 1..]);
    }
  }

  // ---------------------------------------------------------------------
  // Searching a string for one character

  /** `s.find(c)`, with `|s|` standing for "not found". */
  function IndexOf(s: string, c: char): (i: nat)
    ensures i <= |s|
    ensures i < |s| ==> s[i] == c
    ensures forall j :: 0 <= j < i ==> s[j] != c
    decreases |s|
  {
    if |s| == 0 then 0 else if s[0] == c then 0 else 1 + IndexOf(s[1..], c)
  }

  /** `s.rfind(c)`, with `|s|` standing for "not found". */
  function LastIndexOf(s: string, c: char): (i: nat)
    ensures i <= |s|
    ensures i < |s| ==> s[i] == c && forall j :: i < j < |s| ==> s[j] != c
    ensures i == |s| ==> c !in s
    decreases |s|
  {
    if |s| == 0 then 0
    else if s[|s| - 1] == c then |s| - 1
    else
      var k := LastIndexOf(s[..|s| - 1], c);
      if k == |s| - 1 then |s| else k
  }

  // ---------------------------------------------------------------------
  // Decimal rendering, `str(n)`

  function DigitChar(d: int): char
    requires 0 <= d < 10
  {
    "0123456789"[d]
  }

  predicate IsDigit(c: char)
  {
    '0' <= c <= '9'
  }

  function DigitValue(c: char): int
    requires IsDigit(c)
  {
    c as int - '0' as int
  }

  /** `str(n)` for n >= 0 */
  function NatToString(n: nat): (r: string)
    ensures |r| >= 1
    ensures forall i :: 0 <= i < |r| ==> IsDigit(r[i])
    decreases n
  {
    if n < 10 then [DigitChar(n)] else NatToString(n / 10) + [DigitChar(n % 10)]
  }

  /** `str(n)` */
  function IntToString(n: int): (r: string)
    ensures |r| >= 1
    ensures forall i :: 0 <= i < |r| ==> IsDigit(r[i]) || r[i] == '-'
  {
    if n < 0 then "-" + NatToString(-n) else NatToString(n)
  }

  /** The value of a non-empty string of decimal digits. */
  function DigitsValue(s: string): nat
    requires forall i :: 0 <= i < |s| ==> IsDigit(s[i])
    decreases |s|
  {
    if |s| == 0 then 0 else 10 * DigitsValue(s[..|s| - 1]) + DigitValue(s[|s| - 1]) as nat
  }

  lemma {:induction false} NatToStringValue(n: nat)
    ensures DigitsValue(NatToString(n)) == n
    decreases n
  {
    var s := NatToString(n);
    if n < 10 {
      DigitRoundTrip(n);
      assert s[..0] == [];
    } else {
      NatToStringValue(n / 10);
      DigitRoundTrip(n % 10);
      assert s[..|s| - 1] == NatToString(n / 10);
      assert s[|s| - 1] == DigitChar(n % 10);
    }
  }

  lemma DigitRoundTrip(d: int)
    requires 0 <= d < 10
    ensures IsDigit(DigitChar(d)) && DigitValue(DigitChar(d)) == d
  {
  }

  lemma IntToStringSign(n: int)
    ensures IntToString(n)[0] == '-' <==> n < 0
  {
    if n >= 0 {
      assert IsDigit(IntToString(n)[0]);
    }
  }

  lemma NatToStringInjective(a: nat, b: nat)
    requires NatToString(a) == NatToString(b)
    ensures a == b
  {
    NatToStringValue(a);
    NatToStringValue(b);
  }

  /** Distinct numbers print differently. */
  lemma {:induction false} IntToStringInjective(m: int, n: int)
    requires IntToString(m) == IntToString(n)
    ensures m == n
  {
    IntToStringSign(m);
    IntToStringSign(n);
    if m < 0 {
      assert NatToString(-m) == IntToString(m)[1..];
      assert NatToString(-n) == IntToString(n)[1..];
      NatToStringInjective(-m, -n);
    } else {
      NatToStringInjective(m, n);
    }
  }

  // ---------------------------------------------------------------------
  // Dictionaries built from pairs

  /** `dict(pairs)`, a dictionary literal or comprehension over `pairs`:
      a later pair overwrites an earlier one with the same key. */
  function MapOf<K, V>(es: seq<(K, V)>): map<K, V>
  {
    if |es| == 0 then map[]
    else MapOf(es[..|es| - 1])[es[|es| - 1].0 := es[|es| - 1].1]
  }

  /** A key is in the dictionary exactly when some pair carries it, and it
      maps to the value of the LAST pair that carries it. */
  lemma {:induction false} MapOfLastWins<K, V>(es: seq<(K, V)>, name: K)
    ensures name in MapOf(es) <==> exists i :: 0 <= i < |es| && es[i].0 == name
    ensures forall i :: (0 <= i < |es| && es[i].0 == name &&
                         (forall j :: i < j < |es| ==> es[j].0 != name)) ==>
      name in MapOf(es) && MapOf(es)[name] == es[i].1
    decreases |es|
  {
    if |es| > 0 {
      var init := es[..|es| - 1];
      MapOfLastWins(init, name);
      assert forall i :: 0 <= i < |init| ==> init[i] == es[i];
      if es[|es| - 1].0 != name {
        assert (exists i :: 0 <= i < |es| && es[i].0 == name) ==>
               (exists i :: 0 <= i < |init| && init[i].0 == name);
      }
    }
  }

  lemma MapOfEntry<K, V>(es: seq<(K, V)>, i: nat)
    requires i < |es|
    requires forall j :: i < j < |es| ==> es[j].0 != es[i].0
    ensures es[i].0 in MapOf(es) && MapOf(es)[es[i].0] == es[i].1
  {
    MapOfLastWins(es, es[i].0);
  }

  // ---------------------------------------------------------------------
  // Python's string order: lexicographic by code point

  /** `a < b` on Python strings. */
  predicate StrLess(a: string, b: string)
    decreases |a|
  {
    if |a| == 0 then |b| > 0
    else if |b| == 0 then false
    else if a[0] != b[0] then a[0] < b[0]
    else StrLess(a[1..], b[1..])
  }

  lemma {:induction false} StrLessIrreflexive(a: string)
    ensures !StrLess(a, a)
    decreases |a|
  {
    if |a| > 0 {
      StrLessIrreflexive(a[1..]);
    }
  }

  /** Python's string order is a strict total order. */
  lemma {:induction false} StrLessTotal(a: string, b: string)
    ensures a == b || StrLess(a, b) || StrLess(b, a)
    ensures !(StrLess(a, b) && StrLess(b, a))
    decreases |a|
  {
    if |a| > 0 && |b| > 0 && a[0] == b[0] {
      StrLessTotal(a[1..], b[1..]);
      if a[1..] == b[1..] {
        assert a == [a[0]] + a[1..] && b == [b[0]] + b[1..];
      }
    }
  }

  lemma {:induction false} StrLessTransitive(a: string, b: string, c: string)
    requires StrLess(a, b) && StrLess(b, c)
    ensures StrLess(a, c)
    decreases |a|
  {
    if |a| > 0 && a[0] == b[0] && b[0] == c[0] {
      StrLessTransitive(a[1..], b[1..], c[1..]);
    }
  }
}
