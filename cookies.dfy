/** `XHS_Apis.trans_cookies`: a browser cookie string such as
    `"a1=xyz; web_session=abc"` becomes a name -> value dictionary. */
module Cookies {
  import opened Text

  /** The name of one `name=value` segment: the text before the first `=`
      (`seg.split("=")[0]`). */
  function KeyOf(seg: string): string
  {
    Split(seg, "=")[0]
  }

  /** The value of one segment: everything after the first `=`, further `=`
      included (`"=".join(seg.split("=")[1:])`). */
  function ValueOf(seg: string): string
  {
    Join(Split(seg, "=")[1..], "=")
  }

  /** A segment splits at its first `=`; one without `=` is a name whose
      value is the empty string. */
  lemma {:induction false} SegmentParts(seg: string)
    ensures '=' !in seg ==> KeyOf(seg) == seg && ValueOf(seg) == ""
    ensures '=' in seg ==> '=' !in KeyOf(seg) && seg == KeyOf(seg) + "=" + ValueOf(seg)
  {
    if '=' in seg {
      SegmentCut(seg);
    } else {
      SplitWithout(seg, "=");
      assert Split(seg, "=")[1..] == [];
    }
  }

  lemma SegmentCut(seg: string)
    requires '=' in seg
    ensures '=' !in KeyOf(seg) && seg == KeyOf(seg) + "=" + ValueOf(seg)
  {
    var i := IndexOf(seg, '=');
    var p, t := seg[..i], seg[i + 1..];
    assert '=' !in p;
    assert seg == p + "=" + t;
    SplitAfter(p, "=", t);
    JoinSplit(t, "=");
  }

  /** A segment written as `name=value`, neither part holding `=`, gives
      back that name and value. */
  lemma SegmentOf(name: string, value: string)
    requires '=' !in name && '=' !in value
    ensures KeyOf(name + "=" + value) == name && ValueOf(name + "=" + value) == value
  {
    SplitAfter(name, "=", value);
    SplitWithout(value, "=");
  }

  /** The segments: split on `"; "` when that text occurs anywhere in the
      cookie string, otherwise on `";"`. */
  function Segments(cookies: string): seq<string>
  {
    if Contains(cookies, "; ") then Split(cookies, "; ") else Split(cookies, ";")
  }

  /** Each segment as its `(name, value)` pair. */
  function Entries(segs: seq<string>): (es: seq<(string, string)>)
    ensures |es| == |segs|
    ensures forall i :: 0 <= i < |segs| ==> es[i] == (KeyOf(segs[i]), ValueOf(segs[i]))
  {
    seq(|segs|, i requires 0 <= i < |segs| => (KeyOf(segs[i]), ValueOf(segs[i])))
  }

  function BuildMap(segs: seq<string>): map<string, string>
  {
    MapOf(Entries(segs))
  }

  /** `trans_cookies`: a name is in the dictionary exactly when some
      segment carries it, and maps to the value of the last such
      segment. */
  function TransCookies(cookies: string): (r: map<string, string>)
    ensures var segs := Segments(cookies);
      forall name :: name in r <==> exists i :: 0 <= i < |segs| && KeyOf(segs[i]) == name
    ensures var segs := Segments(cookies);
      forall i :: 0 <= i < |segs| && (forall j :: i < j < |segs| ==> KeyOf(segs[j]) != KeyOf(segs[i])) ==>
        KeyOf(segs[i]) in r && r[KeyOf(segs[i])] == ValueOf(segs[i])
  {
    BuildMapAll(Segments(cookies));
    BuildMap(Segments(cookies))
  }

  lemma BuildMapAll(segs: seq<string>)
    ensures forall name :: name in BuildMap(segs) <==> exists i :: 0 <= i < |segs| && KeyOf(segs[i]) == name
    ensures forall i :: 0 <= i < |segs| && (forall j :: i < j < |segs| ==> KeyOf(segs[j]) != KeyOf(segs[i])) ==>
      KeyOf(segs[i]) in BuildMap(segs) && BuildMap(segs)[KeyOf(segs[i])] == ValueOf(segs[i])
  {
    forall name ensures name in BuildMap(segs) <==> exists i :: 0 <= i < |segs| && KeyOf(segs[i]) == name {
      BuildMapLastWins(segs, name);
    }
    forall i | 0 <= i < |segs| && (forall j :: i < j < |segs| ==> KeyOf(segs[j]) != KeyOf(segs[i]))
      ensures KeyOf(segs[i]) in BuildMap(segs) && BuildMap(segs)[KeyOf(segs[i])] == ValueOf(segs[i])
    {
      BuildMapLastWins(segs, KeyOf(segs[i]));
    }
  }

  /** The same for the segments of a cookie string: a name is in the
      dictionary exactly when some segment carries it, and maps to the value
      of the last segment that carries it. */
  lemma BuildMapLastWins(segs: seq<string>, name: string)
    ensures name in BuildMap(segs) <==> exists i :: 0 <= i < |segs| && KeyOf(segs[i]) == name
    ensures forall i :: (0 <= i < |segs| && KeyOf(segs[i]) == name &&
                         (forall j :: i < j < |segs| ==> KeyOf(segs[j]) != name)) ==>
      name in BuildMap(segs) && BuildMap(segs)[name] == ValueOf(segs[i])
  {
    MapOfLastWins(Entries(segs), name);
  }

  /** The separator starts a segment list: `"; "` occurs in the `"; "`-joined
      form of two or more segments. */
  lemma ContainsSeparator(segs: seq<string>)
    requires |segs| >= 2
    ensures Contains(Join(segs, "; "), "; ")
  {
    var s := Join(segs, "; ");
    assert s == segs[0] + "; " + Join(segs[1..], "; ");
    assert s[|segs[0]|..|segs[0]| + 2] == "; ";
    assert OccursAt(s, "; ", |segs[0]|);
  }

  /** Cookie segments as browsers write them: non-empty, free of `;`, not
      starting with a space. */
  predicate WellFormedSegments(segs: seq<string>)
  {
    forall i :: 0 <= i < |segs| ==> |segs[i]| > 0 && ';' !in segs[i] && segs[i][0] != ' '
  }

  /** No `;` of `s` is directly followed by a space. */
  predicate NoSemicolonSpace(s: string)
  {
    forall i :: 0 <= i < |s| - 1 ==> s[i] != ';' || s[i + 1] != ' '
  }

  lemma NoSemicolonSpaceNoSeparator(s: string)
    requires NoSemicolonSpace(s)
    ensures !Contains(s, "; ")
  {
    forall i: nat
      ensures !OccursAt(s, "; ", i)
    {
      if i + 2 <= |s| {
        assert s[i] != ';' || s[i + 1] != ' ';
        assert s[i..i + 2][0] == s[i] && s[i..i + 2][1] == s[i + 1];
      }
    }
  }

  /** The `";"`-joined form of well-formed segments never contains `"; "`. */
  lemma {:induction false} JoinedWithoutSpace(segs: seq<string>)
    requires |segs| > 0 && WellFormedSegments(segs)
    ensures NoSemicolonSpace(Join(segs, ";"))
    decreases |segs|
  {
    if |segs| > 1 {
      var p, t := segs[0], Join(segs[1..], ";");
      var s := Join(segs, ";");
      assert s == p + ";" + t;
      JoinedWithoutSpace(segs[1..]);
      assert |t| > 0 && t[0] == segs[1][0] by {
        if |segs| > 2 {
          assert t == segs[1] + ";" + Join(segs[2..], ";");
        }
      }
      forall i | 0 <= i < |s| - 1 ensures s[i] != ';' || s[i + 1] != ' ' {
        if i < |p| {
          assert s[i] == p[i];
        } else if i == |p| {
          assert s[i + 1] == t[0];
        } else {
          assert s[i] == t[i - |p| - 1] && s[i + 1] == t[i - |p|];
        }
      }
    } else {
      forall i | 0 <= i < |segs[0]| ensures segs[0][i] != ';' { }
    }
  }

  /** `"name=value; name=value"` and `"name=value;name=value"` give the same
      dictionary, for any well-formed list of segments. */
  lemma DelimitersAgree(segs: seq<string>)
    requires WellFormedSegments(segs)
    ensures TransCookies(Join(segs, "; ")) == TransCookies(Join(segs, ";"))
    ensures |segs| > 0 ==> TransCookies(Join(segs, ";")) == BuildMap(segs)
  {
    if |segs| >= 2 {
      SpacedSegments(segs);
      PlainSegments(segs);
    } else if |segs| == 1 {
      PlainSegments(segs);
      assert Join(segs, "; ") == Join(segs, ";");
    }
  }

  lemma SpacedSegments(segs: seq<string>)
    requires |segs| >= 2 && WellFormedSegments(segs)
    ensures Segments(Join(segs, "; ")) == segs
  {
    var s := Join(segs, "; ");
    ContainsSeparator(segs);
    assert forall i :: 0 <= i < |segs| ==> "; "[0] !in segs[i];
    SplitJoin(segs, "; ");
  }

  lemma PlainSegments(segs: seq<string>)
    requires |segs| >= 1 && WellFormedSegments(segs)
    ensures Segments(Join(segs, ";")) == segs
  {
    var s := Join(segs, ";");
    JoinedWithoutSpace(segs);
    NoSemicolonSpaceNoSeparator(s);
    assert forall i :: 0 <= i < |segs| ==> ";"[0] !in segs[i];
    SplitJoin(segs, ";");
  }

  lemma JoinPair(x: string, y: string, sep: string)
    ensures Join([x, y], sep) == x + sep + y
  {
    assert [x, y][1..] == [y];
  }

  lemma BuildMapPair(x: string, y: string)
    ensures BuildMap([x, y]) == map[KeyOf(x) := ValueOf(x)][KeyOf(y) := ValueOf(y)]
  {
    var es := Entries([x, y]);
    assert MapOf(es[..1]) == map[KeyOf(x) := ValueOf(x)] by {
      assert es[..1][..0] == [];
    }
  }

  /** Two well-formed segments, joined either way, give the dictionary of
      the first updated with the second. */
  lemma PairCookies(x: string, y: string)
    requires WellFormedSegments([x, y])
    ensures TransCookies(x + "; " + y) == TransCookies(x + ";" + y)
    ensures TransCookies(x + ";" + y) == map[KeyOf(x) := ValueOf(x)][KeyOf(y) := ValueOf(y)]
  {
    JoinPair(x, y, "; ");
    JoinPair(x, y, ";");
    DelimitersAgree([x, y]);
    BuildMapPair(x, y);
  }
}
