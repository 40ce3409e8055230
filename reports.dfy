/** The report selection of `ReportParser` in `exim_tools.py`: file names
    of a directory are classified into annual and quarterly report keys,
    the newest reports are selected, and each selected report is named and
    paired with the annual report its opening balance comes from. */
module Reports {
  import opened Wrappers
  import opened Text
  import opened Urls

  /** The numeral of a quarter: 一, 二, 三 or 四. */
  datatype Numeral = One | Two | Three | Four

  function NumeralChar(n: Numeral): char
  {
    match n
    case One => '一'
    case Two => '二'
    case Three => '三'
    case Four => '四'
  }

  /** The period label of a quarter key, the numeral followed by `季度`. */
  function Period(n: Numeral): (l: string)
    ensures |l| == 3 && l[0] == NumeralChar(n)
  {
    [NumeralChar(n)] + "季度"
  }

  /** `("annual", year)` or `("quarter", year, Period(numeral))`. */
  datatype Key = Annual(year: int) | Quarter(year: int, numeral: Numeral)

  // ---------------------------------------------------------------------
  // Classifying one file name

  /** The two patterns: `([12]\d{3})年报` and `([12]\d{3})([一二三四])季报`. */
  datatype Pattern = AnnualPattern | QuarterPattern

  predicate YearAt(f: string, i: nat)
  {
    i + 4 <= |f| && (f[i] == '1' || f[i] == '2') && IsDigit(f[i + 1]) && IsDigit(f[i + 2]) && IsDigit(f[i + 3])
  }

  /** `[一二三四]` */
  predicate NumeralAt(c: char)
  {
    c == '一' || c == '二' || c == '三' || c == '四'
  }

  /** The pattern `p` matches `f` starting at position `i`. */
  predicate MatchAt(p: Pattern, f: string, i: nat)
  {
    match p
    case AnnualPattern => i + 6 <= |f| && YearAt(f, i) && f[i + 4] == '年' && f[i + 5] == '报'
    case QuarterPattern => i + 7 <= |f| && YearAt(f, i) && NumeralAt(f[i + 4]) && f[i + 5] == '季' && f[i + 6] == '报'
  }

  /** `re.search`: the leftmost position at or after `from` where `p`
      matches. */
  function FirstMatch(p: Pattern, f: string, from: nat): (r: Option<nat>)
    ensures r.Some? ==> from <= r.value && MatchAt(p, f, r.value)
    decreases |f| - from
  {
    if from >= |f| then None
    else if MatchAt(p, f, from) then Some(from)
    else FirstMatch(p, f, from + 1)
  }

  /** No match starts between `from` and the one found; with none found,
      no match starts at or after `from`. */
  lemma {:induction false} FirstMatchLeftmost(p: Pattern, f: string, from: nat)
    ensures FirstMatch(p, f, from).Some? ==> forall j :: from <= j < FirstMatch(p, f, from).value ==> !MatchAt(p, f, j)
    ensures FirstMatch(p, f, from).None? ==> forall j :: from <= j ==> !MatchAt(p, f, j)
    decreases |f| - from
  {
    if from < |f| && !MatchAt(p, f, from) {
      FirstMatchLeftmost(p, f, from + 1);
    }
  }

  /** `int(match.group(1))` */
  function YearOf(f: string, i: nat): (y: int)
    requires YearAt(f, i)
    ensures 1000 <= y <= 2999
  {
    1000 * DigitValue(f[i]) + 100 * DigitValue(f[i + 1]) + 10 * DigitValue(f[i + 2]) + DigitValue(f[i + 3])
  }

  /** `match.group(2)`, the numeral whose label is `group(2) + "季度"`. */
  function NumeralOf(c: char): (n: Numeral)
    requires NumeralAt(c)
    ensures NumeralChar(n) == c && Period(n) == [c] + "季度"
  {
    if c == '一' then One
    else if c == '二' then Two
    else if c == '三' then Three
    else Four
  }

  /** The key a file name is filed under, if any: the annual pattern is
      tried first, and the leftmost match of a pattern decides. */
  function Classify(f: string): (r: Option<Key>)
    ensures r.Some? ==> exists i ::
      MatchAt(if r.value.Annual? then AnnualPattern else QuarterPattern, f, i) && r.value.year == YearOf(f, i)
    ensures r.Some? && r.value.Quarter? ==> FirstMatch(AnnualPattern, f, 0).None?
  {
    match FirstMatch(AnnualPattern, f, 0)
    case Some(i) => Some(Annual(YearOf(f, i)))
    case None =>
      match FirstMatch(QuarterPattern, f, 0)
      case Some(i) => Some(Quarter(YearOf(f, i), NumeralOf(f[i + 4])))
      case None => None
  }

  /** A name is filed as annual exactly when the annual pattern occurs in
      it, and as quarterly exactly when only the quarterly pattern does;
      the year is the four digits the leftmost match starts with. */
  lemma ClassifyMatches(f: string)
    ensures Classify(f).Some? && Classify(f).value.Annual? <==> exists i :: MatchAt(AnnualPattern, f, i)
    ensures Classify(f).Some? && Classify(f).value.Quarter? <==>
      (forall i :: !MatchAt(AnnualPattern, f, i)) && exists i :: MatchAt(QuarterPattern, f, i)
    ensures Classify(f).Some? ==> 1000 <= Classify(f).value.year <= 2999
    ensures Classify(f).Some? ==> exists i ::
      MatchAt(if Classify(f).value.Annual? then AnnualPattern else QuarterPattern, f, i) &&
      Classify(f).value.year == YearOf(f, i)
  {
    FirstMatchLeftmost(AnnualPattern, f, 0);
    FirstMatchLeftmost(QuarterPattern, f, 0);
  }

  /** `os.path.join(path, f)` for a name `f` listed in the directory. */
  function PathJoin(path: string, f: string): string
  {
    if path == [] || path[|path| - 1] == '/' then path + f else path + "/" + f
  }

  /** The joined path starts with `path`, ends with `f`, and puts exactly
      one `/` between them unless `path` is empty. */
  lemma PathJoinParts(path: string, f: string)
    ensures var r := PathJoin(path, f);
      |path| + |f| <= |r| <= |path| + |f| + 1 && r[..|path|] == path && r[|r| - |f|..] == f &&
      (path != [] ==> r[|path| - 1..|r| - |f|] == (if path[|path| - 1] == '/' then "/" else [path[|path| - 1], '/']))
  {
  }

  // ---------------------------------------------------------------------
  // A Python dict: the keys in insertion order and the value of each

  /** `report_dict` and `selected`. */
  datatype Dict = Dict(keys: seq<Key>, values: map<Key, string>)

  const Empty: Dict := Dict([], map[])

  predicate Distinct(ks: seq<Key>)
  {
    forall i, j :: 0 <= i < j < |ks| ==> ks[i] != ks[j]
  }

  /** Each key listed once, and listed exactly when it has a value. */
  ghost predicate Consistent(d: Dict)
  {
    Distinct(d.keys) && forall k :: k in d.values <==> k in d.keys
  }

  /** `d[k] = v`: a new key goes last, an existing key keeps its place and
      takes the new value. */
  function Put(d: Dict, k: Key, v: string): (r: Dict)
    requires Consistent(d)
    ensures Consistent(r) && r.values == d.values[k := v]
  {
    if k in d.values then Dict(d.keys, d.values[k := v])
    else Dict(d.keys + [k], d.values[k := v])
  }

  /** Every entry of `r` is an entry of `d`. */
  predicate SubDict(r: Dict, d: Dict)
  {
    forall k :: k in r.values ==> k in d.values && r.values[k] == d.values[k]
  }

  // ---------------------------------------------------------------------
  // `ReportParser.__init__`

  /** `report_dict` after the loop over the directory listing `files`. */
  function Filed(path: string, files: seq<string>): (d: Dict)
    ensures Consistent(d)
    decreases |files|
  {
    if |files| == 0 then Empty
    else
      var n := |files| - 1;
      FileOne(Filed(path, files[..n]), path, files[n])
  }

  /** One turn of the loop: a file name that classifies is filed under its
      key, any other is skipped. */
  function FileOne(d: Dict, path: string, f: string): (r: Dict)
    requires Consistent(d)
    ensures Consistent(r)
  {
    match Classify(f)
    case Some(k) => Put(d, k, PathJoin(path, f))
    case None => d
  }

  /** Some file name of `files` classifies to `k`. */
  predicate Names(files: seq<string>, k: Key)
  {
    exists i :: 0 <= i < |files| && Classify(files[i]) == Some(k)
  }

  /** A key is filed exactly when some file name classifies to it. */
  lemma {:induction false} FiledKeys(path: string, files: seq<string>, k: Key)
    ensures k in Filed(path, files).values <==> Names(files, k)
    decreases |files|
  {
    if |files| > 0 {
      var n := |files| - 1;
      var init := files[..n];
      FiledKeys(path, init, k);
      NamesSnoc(init, files[n], k);
      assert init + [files[n]] == files;
    }
  }

  lemma NamesSnoc(files: seq<string>, f: string, k: Key)
    ensures Names(files + [f], k) <==> Names(files, k) || Classify(f) == Some(k)
  {
    var s := files + [f];
    if Names(files, k) {
      var i :| 0 <= i < |files| && Classify(files[i]) == Some(k);
      assert s[i] == files[i];
    }
    if Classify(f) == Some(k) {
      assert s[|files|] == f;
    }
    if Names(s, k) {
      var i :| 0 <= i < |s| && Classify(s[i]) == Some(k);
      if i < |files| {
        assert s[i] == files[i];
      }
    }
  }

  /** Of several files filed under the same key, the last one listed
      wins. */
  lemma {:induction false} FiledLaterWins(path: string, files: seq<string>, k: Key, i: nat)
    requires i < |files| && Classify(files[i]) == Some(k)
    requires forall j :: i < j < |files| ==> Classify(files[j]) != Some(k)
    ensures k in Filed(path, files).values && Filed(path, files).values[k] == PathJoin(path, files[i])
    decreases |files|
  {
    var n := |files| - 1;
    var init := files[..n];
    var d := Filed(path, init);
    assert Filed(path, files) == FileOne(d, path, files[n]);
    if i < n {
      forall j | i < j < n ensures Classify(init[j]) != Some(k) {
        assert init[j] == files[j];
      }
      assert init[i] == files[i];
      FiledLaterWins(path, init, k, i);
      FileOneOther(d, path, files[n], k);
    } else {
      FileOneSame(d, path, files[n], k);
    }
  }

  lemma FileOneSame(d: Dict, path: string, f: string, k: Key)
    requires Consistent(d) && Classify(f) == Some(k)
    ensures k in FileOne(d, path, f).values && FileOne(d, path, f).values[k] == PathJoin(path, f)
  {
  }

  lemma FileOneOther(d: Dict, path: string, f: string, k: Key)
    requires Consistent(d) && Classify(f) != Some(k) && k in d.values
    ensures k in FileOne(d, path, f).values && FileOne(d, path, f).values[k] == d.values[k]
  {
  }

  // ---------------------------------------------------------------------
  // `select_reports`

  /** `[k[1] for k in keys if k[0] == "annual"]` */
  function AnnualYears(ks: seq<Key>): (ys: seq<int>)
    ensures |ys| <= |ks|
    decreases |ks|
  {
    if |ks| == 0 then []
    else
      var n := |ks| - 1;
      AnnualYears(ks[..n]) + (if ks[n].Annual? then [ks[n].year] else [])
  }

  /** `[k for k in keys if k[0] == "quarter"]` */
  function QuarterKeys(ks: seq<Key>): (qs: seq<Key>)
    ensures |qs| <= |ks|
    decreases |ks|
  {
    if |ks| == 0 then []
    else
      var n := |ks| - 1;
      QuarterKeys(ks[..n]) + (if ks[n].Quarter? then [ks[n]] else [])
  }

  /** The comprehensions keep exactly the keys of their kind. */
  lemma {:induction false} KindMembers(ks: seq<Key>)
    ensures forall y :: y in AnnualYears(ks) <==> Annual(y) in ks
    ensures forall q :: q in QuarterKeys(ks) <==> q in ks && q.Quarter?
    decreases |ks|
  {
    if |ks| > 0 {
      var n := |ks| - 1;
      KindMembers(ks[..n]);
      assert ks == ks[..n] + [ks[n]];
    }
  }

  /** The quarter candidates are filed quarter keys. */
  lemma Candidates(d: Dict)
    requires Consistent(d)
    ensures forall q :: q in QuarterKeys(d.keys) ==> q.Quarter? && q in d.values
  {
    KindMembers(d.keys);
  }

  predicate DistinctYears(s: seq<int>)
  {
    forall i, j :: 0 <= i < j < |s| ==> s[i] != s[j]
  }

  predicate Increasing(s: seq<int>)
  {
    forall i, j :: 0 <= i < j < |s| ==> s[i] < s[j]
  }

  /** The years of distinct keys are distinct. */
  lemma {:induction false} AnnualYearsDistinct(ks: seq<Key>)
    requires Distinct(ks)
    ensures DistinctYears(AnnualYears(ks))
    decreases |ks|
  {
    if |ks| > 0 {
      var n := |ks| - 1;
      AnnualYearsDistinct(ks[..n]);
      KindMembers(ks[..n]);
    }
  }

  /** Insert `x` into an increasing sequence. */
  function InsertYear(x: int, s: seq<int>): (r: seq<int>)
    ensures |r| == |s| + 1
    decreases |s|
  {
    if |s| == 0 then [x]
    else if s[|s| - 1] <= x then s + [x]
    else InsertYear(x, s[..|s| - 1]) + [s[|s| - 1]]
  }

  /** Inserting adds `x` and loses nothing. */
  lemma {:induction false} InsertYearCount(x: int, s: seq<int>)
    ensures multiset(InsertYear(x, s)) == multiset(s) + multiset{x}
    decreases |s|
  {
    if |s| > 0 && s[|s| - 1] > x {
      var init, last := s[..|s| - 1], s[|s| - 1];
      assert s == init + [last];
      InsertYearCount(x, init);
    }
  }

  lemma {:induction false} InsertIncreasing(x: int, s: seq<int>)
    requires Increasing(s) && x !in s
    ensures Increasing(InsertYear(x, s))
    decreases |s|
  {
    if |s| > 0 && s[|s| - 1] > x {
      var init, last := s[..|s| - 1], s[|s| - 1];
      assert x !in init by {
        assert forall i :: 0 <= i < |init| ==> init[i] == s[i];
      }
      InsertIncreasing(x, init);
      InsertYearCount(x, init);
      var head := InsertYear(x, init);
      forall y | y in head ensures y < last {
        assert y in multiset(head);
        if y != x {
          assert y in init;
        }
      }
      var r := head + [last];
      forall i, j | 0 <= i < j < |r| ensures r[i] < r[j] {
        if j == |r| - 1 {
          assert r[i] in head;
        } else {
          assert r[i] == head[i] && r[j] == head[j];
        }
      }
    }
  }

  /** `sorted(year_list)` for a list of distinct years. */
  function SortYears(s: seq<int>): (r: seq<int>)
    ensures |r| == |s|
    decreases |s|
  {
    if |s| == 0 then [] else InsertYear(s[|s| - 1], SortYears(s[..|s| - 1]))
  }

  /** `sorted` permutes its input, and orders distinct years
      increasingly. */
  lemma {:induction false} SortYearsSpec(s: seq<int>)
    ensures multiset(SortYears(s)) == multiset(s)
    ensures DistinctYears(s) ==> Increasing(SortYears(s))
    decreases |s|
  {
    if |s| > 0 {
      var init, x := s[..|s| - 1], s[|s| - 1];
      assert s == init + [x];
      SortYearsSpec(init);
      InsertYearCount(x, SortYears(init));
      SortStep(init, x, SortYears(init));
    }
  }

  lemma SortStep(init: seq<int>, x: int, sorted: seq<int>)
    requires multiset(sorted) == multiset(init)
    requires DistinctYears(init) ==> Increasing(sorted)
    ensures DistinctYears(init + [x]) ==> Increasing(InsertYear(x, sorted))
  {
    if DistinctYears(init + [x]) {
      var s := init + [x];
      assert DistinctYears(init) by {
        assert forall i :: 0 <= i < |init| ==> init[i] == s[i];
      }
      assert x !in multiset(init) by {
        assert forall i :: 0 <= i < |init| ==> init[i] == s[i] && s[i] != s[|init|];
      }
      InsertIncreasing(x, sorted);
    }
  }


  /** `sorted(year_list)[-3:]`: the annual years selected. */
  function LastThree(d: Dict): (ys: seq<int>)
  {
    LastN(SortYears(AnnualYears(d.keys)), 3)
  }

  /** The keys `("annual", y)` for the years `ys`, in order. */
  function AnnualKeys(ys: seq<int>): (ks: seq<Key>)
    ensures |ks| == |ys| && forall i :: 0 <= i < |ys| ==> ks[i] == Annual(ys[i])
  {
    seq(|ys|, i requires 0 <= i < |ys| => Annual(ys[i]))
  }

  /** `{("annual", y): d[("annual", y)] for y in ys}` */
  function AnnualPart(d: Dict, ys: seq<int>): (r: Dict)
    requires forall y :: y in ys ==> Annual(y) in d.values
    ensures Consistent(r) && SubDict(r, d)
    ensures DistinctYears(ys) ==> r.keys == AnnualKeys(ys)
    decreases |ys|
  {
    if |ys| == 0 then Empty
    else
      var n := |ys| - 1;
      var prev := AnnualPart(d, ys[..n]);
      assert ys[n] !in ys[..n] ==> Annual(ys[n]) !in AnnualKeys(ys[..n]);
      assert AnnualKeys(ys[..n]) + [Annual(ys[n])] == AnnualKeys(ys);
      Put(prev, Annual(ys[n]), d.values[Annual(ys[n])])
  }

  lemma AnnualPartStep(d: Dict, ys: seq<int>, i: nat)
    requires forall y :: y in ys ==> Annual(y) in d.values
    requires i < |ys|
    ensures forall y :: y in ys[..i + 1] ==> Annual(y) in d.values
    ensures AnnualPart(d, ys[..i + 1]) == Put(AnnualPart(d, ys[..i]), Annual(ys[i]), d.values[Annual(ys[i])])
  {
    assert ys[..i + 1][..i] == ys[..i];
  }

  /** Quarter order by calendar: the rank of the numeral. */
  function Rank(n: Numeral): (r: int)
    ensures 1 <= r <= 4
  {
    match n
    case One => 1
    case Two => 2
    case Three => 3
    case Four => 4
  }

  /** `a` is a later quarter than `b`. */
  predicate Later(a: Key, b: Key)
  {
    a.Quarter? && b.Quarter? && (a.year > b.year || (a.year == b.year && Rank(a.numeral) > Rank(b.numeral)))
  }

  /** Of two distinct quarter keys, one is later. */
  lemma LaterTotal(a: Key, b: Key)
    requires a.Quarter? && b.Quarter?
    ensures a == b || Later(a, b) || Later(b, a)
  {
  }

  /** The newest quarter of `qs` by calendar. */
  function Newest(qs: seq<Key>): (r: Key)
    requires |qs| > 0 && forall q :: q in qs ==> q.Quarter?
    ensures r in qs && forall q :: q in qs ==> !Later(q, r)
    decreases |qs|
  {
    var n := |qs| - 1;
    assert qs == qs[..n] + [qs[n]];
    if n == 0 then qs[0]
    else
      var best := Newest(qs[..n]);
      if Later(qs[n], best) then qs[n] else best
  }

  /** The newest quarter is later than every other candidate. */
  lemma {:induction false} NewestLatest(qs: seq<Key>)
    requires |qs| > 0 && forall q :: q in qs ==> q.Quarter?
    ensures forall q :: q in qs ==> q == Newest(qs) || Later(Newest(qs), q)
    decreases |qs|
  {
    var n := |qs| - 1;
    assert qs == qs[..n] + [qs[n]];
    if n > 0 {
      NewestLatest(qs[..n]);
      LaterTotal(qs[n], Newest(qs[..n]));
    }
  }

  /** The two ways of ranking quarters: `Calendar` by the numeral's place
      in the year, `AsWritten` by the sort key `(year, label)` of
      `select_reports`, whose labels compare by code point. */
  datatype QuarterOrder = Calendar | AsWritten

  predicate LaterIn(o: QuarterOrder, a: Key, b: Key)
  {
    match o
    case Calendar => Later(a, b)
    case AsWritten => LaterAsWritten(a, b)
  }

  /** The newest quarter of `qs` in order `o`. */
  function NewestIn(o: QuarterOrder, qs: seq<Key>): (r: Key)
    requires |qs| > 0 && forall q :: q in qs ==> q.Quarter?
    ensures r in qs
  {
    match o
    case Calendar => Newest(qs)
    case AsWritten => NewestAsWritten(qs)
  }

  /** In either order the newest quarter is later than every other
      candidate. */
  lemma NewestInLatest(o: QuarterOrder, qs: seq<Key>)
    requires |qs| > 0 && forall q :: q in qs ==> q.Quarter?
    ensures forall q :: q in qs ==> q == NewestIn(o, qs) || LaterIn(o, NewestIn(o, qs), q)
  {
    match o
    case Calendar =>
      NewestLatest(qs);
    case AsWritten =>
      var r := NewestAsWritten(qs);
      forall q | q in qs ensures q == r || LaterAsWritten(r, q) {
        LaterAsWrittenTotal(q, r);
      }
  }

  /** `quarters_sorted[0]`: the newest filed quarter in order `o`, if
      any. */
  function NewestQuarter(d: Dict, o: QuarterOrder): (r: Option<Key>)
    requires Consistent(d)
    ensures r.None? <==> QuarterKeys(d.keys) == []
    ensures r.Some? ==> r.value.Quarter? && r.value in d.values
  {
    var qs := QuarterKeys(d.keys);
    Candidates(d);
    if |qs| == 0 then None else Some(NewestIn(o, qs))
  }

  /** The same quarter one year earlier. */
  function YearBefore(q: Key): Key
    requires q.Quarter?
  {
    Quarter(q.year - 1, q.numeral)
  }

  /** The keys `select_reports` picks for the quarters of `d`, with the
      newest quarter taken in order `o`. */
  function QuarterPart(d: Dict, o: QuarterOrder): (ks: seq<Key>)
    requires Consistent(d)
    ensures forall i :: 0 <= i < |ks| ==> ks[i].Quarter?
  {
    match NewestQuarter(d, o)
    case None => []
    case Some(newest) => [newest] + (if YearBefore(newest) in d.values then [YearBefore(newest)] else [])
  }

  /** The years `select_reports` keeps are annual years of `d`, each
      once. */
  lemma SelectedYears(d: Dict)
    requires Consistent(d)
    ensures DistinctYears(LastThree(d))
    ensures forall y :: y in LastThree(d) ==> Annual(y) in d.values
  {
    AnnualYearsDistinct(d.keys);
    TopThree(AnnualYears(d.keys));
    KindMembers(d.keys);
  }

  /** The annual reports of the selection, oldest first. */
  function AnnualSelection(d: Dict): (sel: Dict)
    requires Consistent(d)
    ensures Consistent(sel) && SubDict(sel, d)
    ensures sel.keys == AnnualKeys(LastThree(d))
  {
    SelectedYears(d);
    AnnualPart(d, LastThree(d))
  }

  /** `sel` with the newest quarter and, when filed, the same quarter a
      year earlier added. */
  function WithQuarters(d: Dict, sel: Dict, o: QuarterOrder): (r: Dict)
    requires Consistent(d) && Consistent(sel)
    ensures Consistent(r)
    ensures SubDict(sel, d) ==> SubDict(r, d)
  {
    match NewestQuarter(d, o)
    case None => sel
    case Some(newest) => AddQuarter(d, sel, newest)
  }

  /** `selected[newest] = …`, then `selected[last_year_same] = …` when
      `d` holds it. */
  function AddQuarter(d: Dict, sel: Dict, newest: Key): (r: Dict)
    requires Consistent(sel) && newest in d.values && newest.Quarter?
    ensures Consistent(r)
    ensures SubDict(sel, d) ==> SubDict(r, d)
  {
    var withNewest := Put(sel, newest, d.values[newest]);
    var same := YearBefore(newest);
    if same in d.values then Put(withNewest, same, d.values[same]) else withNewest
  }

  /** Added to annual reports only, the two quarters go last. */
  lemma AddQuarterKeys(d: Dict, sel: Dict, newest: Key)
    requires Consistent(sel) && newest in d.values && newest.Quarter?
    requires forall k :: k in sel.keys ==> k.Annual?
    ensures AddQuarter(d, sel, newest).keys ==
      sel.keys + ([newest] + (if YearBefore(newest) in d.values then [YearBefore(newest)] else []))
  {
    var withNewest := Put(sel, newest, d.values[newest]);
    assert withNewest.keys == sel.keys + [newest];
    var tail := if YearBefore(newest) in d.values then [YearBefore(newest)] else [];
    assert sel.keys + [newest] + tail == sel.keys + ([newest] + tail);
  }

  /** Added to annual reports only, the quarters go last. */
  lemma WithQuartersKeys(d: Dict, sel: Dict, o: QuarterOrder)
    requires Consistent(d) && Consistent(sel)
    requires forall k :: k in sel.keys ==> k.Annual?
    ensures WithQuarters(d, sel, o).keys == sel.keys + QuarterPart(d, o)
  {
    match NewestQuarter(d, o)
    case None =>
    case Some(newest) =>
      AddQuarterKeys(d, sel, newest);
  }

  /** The selection of `select_reports` for `report_dict == d`, with the
      newest quarter taken in order `o`: `Selection(d, AsWritten)` is what
      the code returns, `Selection(d, Calendar)` what it is meant to
      return. */
  function Selection(d: Dict, o: QuarterOrder): (sel: Dict)
    requires Consistent(d)
  {
    WithQuarters(d, AnnualSelection(d), o)
  }

  lemma {:induction false} AnnualYearsAppend(a: seq<Key>, b: seq<Key>)
    ensures AnnualYears(a + b) == AnnualYears(a) + AnnualYears(b)
    decreases |b|
  {
    if |b| == 0 {
      assert a + b == a;
    } else {
      var n := |b| - 1;
      assert (a + b)[..|a + b| - 1] == a + b[..n];
      assert (a + b)[|a + b| - 1] == b[n];
      AnnualYearsAppend(a, b[..n]);
    }
  }

  lemma {:induction false} QuarterKeysAppend(a: seq<Key>, b: seq<Key>)
    ensures QuarterKeys(a + b) == QuarterKeys(a) + QuarterKeys(b)
    decreases |b|
  {
    if |b| == 0 {
      assert a + b == a;
    } else {
      var n := |b| - 1;
      assert (a + b)[..|a + b| - 1] == a + b[..n];
      assert (a + b)[|a + b| - 1] == b[n];
      QuarterKeysAppend(a, b[..n]);
    }
  }

  lemma {:induction false} AnnualKeysYears(ys: seq<int>)
    ensures AnnualYears(AnnualKeys(ys)) == ys
    ensures QuarterKeys(AnnualKeys(ys)) == []
    decreases |ys|
  {
    if |ys| > 0 {
      var n := |ys| - 1;
      assert ys == ys[..n] + [ys[n]];
      AnnualKeysYears(ys[..n]);
      var ks := AnnualKeys(ys);
      assert ks[..n] == AnnualKeys(ys[..n]);
      assert AnnualYears(ks) == AnnualYears(ks[..n]) + [ys[n]];
    }
  }

  /** The selection lists the chosen annual reports, oldest first, then
      the chosen quarterly reports. */
  lemma SelectionKeys(d: Dict, o: QuarterOrder)
    requires Consistent(d)
    ensures Selection(d, o).keys == AnnualKeys(LastThree(d)) + QuarterPart(d, o)
  {
    var sel := AnnualSelection(d);
    assert forall k :: k in sel.keys ==> k.Annual?;
    WithQuartersKeys(d, sel, o);
  }

  /** Every selected report is the one `report_dict` holds for its key, and
      no key is selected twice. */
  lemma SelectionSubset(d: Dict, o: QuarterOrder)
    requires Consistent(d)
    ensures Consistent(Selection(d, o)) && SubDict(Selection(d, o), d)
  {
  }

  /** Keys that are all quarterly. */
  lemma {:induction false} AllQuarters(ks: seq<Key>)
    requires forall i :: 0 <= i < |ks| ==> ks[i].Quarter?
    ensures AnnualYears(ks) == [] && QuarterKeys(ks) == ks
    decreases |ks|
  {
    if |ks| > 0 {
      var n := |ks| - 1;
      AllQuarters(ks[..n]);
      assert ks == ks[..n] + [ks[n]];
    }
  }

  /** The years of the selection are `sorted(year_list)[-3:]`, and its
      quarterly keys are those `QuarterPart` picks. */
  lemma SelectionKinds(d: Dict, o: QuarterOrder)
    requires Consistent(d)
    ensures AnnualYears(Selection(d, o).keys) == LastThree(d)
    ensures QuarterKeys(Selection(d, o).keys) == QuarterPart(d, o)
  {
    var ys, part := LastThree(d), QuarterPart(d, o);
    SelectionKeys(d, o);
    AllQuarters(part);
    AnnualKeysYears(ys);
    AnnualYearsAppend(AnnualKeys(ys), part);
    QuarterKeysAppend(AnnualKeys(ys), part);
  }

  /** `sorted(years)[-3:]` of distinct years: the three largest (all of
      them when there are fewer), in increasing order. */
  lemma TopThree(all: seq<int>)
    requires DistinctYears(all)
    ensures var ys := LastN(SortYears(all), 3);
      |ys| == (if |all| < 3 then |all| else 3) &&
      Increasing(ys) &&
      (forall y :: y in ys ==> y in all) &&
      (forall y, z :: y in all && y !in ys && z in ys ==> y < z)
  {
    SortYearsSpec(all);
    var sorted := SortYears(all);
    var ys := LastN(sorted, 3);
    var m := |sorted| - |ys|;
    assert ys == sorted[m..];
    forall y | y in ys ensures y in all {
      assert y in multiset(sorted);
    }
    forall y | y in all ensures y in sorted {
      assert y in multiset(sorted);
    }
    SuffixDominates(sorted, m);
  }

  /** In an increasing sequence, a suffix is increasing and lies above
      everything before it. */
  lemma SuffixDominates(s: seq<int>, m: nat)
    requires Increasing(s) && m <= |s|
    ensures Increasing(s[m..])
    ensures forall y, z :: y in s && y !in s[m..] && z in s[m..] ==> y < z
  {
    var t := s[m..];
    forall i, j | 0 <= i < j < |t| ensures t[i] < t[j] {
      assert t[i] == s[m + i] && t[j] == s[m + j];
    }
    assert forall k :: m <= k < |s| ==> s[k] == t[k - m];
    forall y, z | y in s && y !in t && z in t ensures y < z {
      var i :| 0 <= i < |s| && s[i] == y;
      var j :| 0 <= j < |t| && t[j] == z;
      assert i < m && s[m + j] == z;
    }
  }

  lemma LastThreeIncreasing(d: Dict)
    requires Consistent(d)
    ensures Increasing(LastThree(d))
  {
    AnnualYearsDistinct(d.keys);
    TopThree(AnnualYears(d.keys));
  }

  /** The annual reports selected are those of the three latest years (all
      of them when there are fewer), oldest first. */
  lemma SelectionAnnual(d: Dict, o: QuarterOrder)
    requires Consistent(d)
    ensures var all, ys := AnnualYears(d.keys), AnnualYears(Selection(d, o).keys);
      |ys| == (if |all| < 3 then |all| else 3) &&
      Increasing(ys) &&
      (forall y :: y in ys ==> y in all) &&
      (forall y, z :: y in all && y !in ys && z in ys ==> y < z)
  {
    SelectionKinds(d, o);
    AnnualYearsDistinct(d.keys);
    TopThree(AnnualYears(d.keys));
  }

  /** The quarterly reports `select_reports` picks: the newest quarter of
      all filed in order `o`, then the same quarter one year earlier when it
      was filed; none without quarterly files. */
  lemma SelectionQuarters(d: Dict, o: QuarterOrder)
    requires Consistent(d)
    ensures QuarterKeys(d.keys) == [] ==> QuarterPart(d, o) == []
    ensures QuarterKeys(d.keys) != [] ==>
      var n := QuarterPart(d, o)[0];
      n in d.values && n.Quarter? && (forall q :: q in d.values && q.Quarter? ==> q == n || LaterIn(o, n, q)) &&
      QuarterPart(d, o) == [n] + (if YearBefore(n) in d.values then [YearBefore(n)] else [])
  {
    var qs := QuarterKeys(d.keys);
    KindMembers(d.keys);
    if |qs| > 0 {
      NewestInLatest(o, qs);
      assert NewestQuarter(d, o) == Some(NewestIn(o, qs));
    }
  }


  class ReportParser {
    const path: string
    var reportDict: Dict

    ghost predicate Valid()
      reads this
    {
      Consistent(reportDict)
    }

    /** `__init__`, given the listing `files` of the directory `path`. */
    constructor (path: string, files: seq<string>)
      ensures Valid()
      ensures this.path == path && reportDict == Filed(path, files)
    {
      this.path := path;
      var d := Empty;
      var i := 0;
      while i < |files|
        invariant 0 <= i <= |files| && d == Filed(path, files[..i])
      {
        assert files[..i + 1][..i] == files[..i];
        var k := Classify(files[i]);
        if k.Some? {
          d := Put(d, k.value, PathJoin(path, files[i]));
        }
        i := i + 1;
      }
      assert files[..|files|] == files;
      reportDict := d;
    }

    /** `select_reports`: the annual reports of the last three years, then
        the newest quarter and the same quarter a year earlier. */
    method SelectReports() returns (selected: Dict)
      requires Valid()
      ensures selected == Selection(reportDict, AsWritten)
    {
      var d := reportDict;
      SelectedYears(d);
      var last3 := LastN(SortYears(AnnualYears(d.keys)), 3);
      selected := CopyYears(d, last3);
      selected := AddQuarters(d, selected);
    }
  }

  /** The quarter half of `select_reports`, with its sort by `(year,
      label)`. */
  method AddQuarters(d: Dict, annual: Dict) returns (selected: Dict)
    requires Consistent(d) && Consistent(annual)
    ensures selected == WithQuarters(d, annual, AsWritten)
  {
    selected := annual;
    var candidates := QuarterKeys(d.keys);
    if |candidates| == 0 {
      return;
    }
    Candidates(d);
    var newest := NewestAsWritten(candidates);
    selected := Put(selected, newest, d.values[newest]);
    var lastYearSame := YearBefore(newest);
    if lastYearSame in d.values {
      selected := Put(selected, lastYearSame, d.values[lastYearSame]);
    }
  }

  /** The dict comprehension over `last_3_years`. */
  method CopyYears(d: Dict, ys: seq<int>) returns (selected: Dict)
    requires forall y :: y in ys ==> Annual(y) in d.values
    ensures selected == AnnualPart(d, ys)
  {
    selected := Empty;
    var i := 0;
    while i < |ys|
      invariant 0 <= i <= |ys|
      invariant forall y :: y in ys[..i] ==> Annual(y) in d.values
      invariant selected == AnnualPart(d, ys[..i])
    {
      AnnualPartStep(d, ys, i);
      selected := Put(selected, Annual(ys[i]), d.values[Annual(ys[i])]);
      i := i + 1;
    }
    AnnualPartWhole(d, ys);
  }

  lemma AnnualPartWhole(d: Dict, ys: seq<int>)
    requires forall y :: y in ys ==> Annual(y) in d.values
    ensures forall y :: y in ys[..|ys|] ==> Annual(y) in d.values
    ensures AnnualPart(d, ys[..|ys|]) == AnnualPart(d, ys)
  {
    assert ys[..|ys|] == ys;
  }

  // ---------------------------------------------------------------------
  // The quarter order as the source compares it

  /** `(a[1], a[2]) > (b[1], b[2])`: the period compared as a string, by
      code point. */
  predicate LaterAsWritten(a: Key, b: Key)
  {
    a.Quarter? && b.Quarter? && (a.year > b.year || (a.year == b.year && StrLess(Period(b.numeral), Period(a.numeral))))
  }

  lemma LaterAsWrittenTransitive(a: Key, b: Key, c: Key)
    requires LaterAsWritten(a, b) && LaterAsWritten(b, c)
    ensures LaterAsWritten(a, c)
  {
    if a.year == b.year && b.year == c.year {
      StrLessTransitive(Period(c.numeral), Period(b.numeral), Period(a.numeral));
    }
  }

  /** `sorted(quarter_candidates, key=lambda t: (t[1], t[2]), reverse=True)[0]` */
  function NewestAsWritten(qs: seq<Key>): (r: Key)
    requires |qs| > 0 && forall q :: q in qs ==> q.Quarter?
    ensures r in qs && forall q :: q in qs ==> !LaterAsWritten(q, r)
    decreases |qs|
  {
    var n := |qs| - 1;
    assert qs == qs[..n] + [qs[n]];
    StrLessIrreflexive(Period(qs[n].numeral));
    if n == 0 then qs[0]
    else
      var best := NewestAsWritten(qs[..n]);
      if LaterAsWritten(qs[n], best) then
        AsWrittenStep(qs[..n], best, qs[n]);
        qs[n]
      else best
  }

  lemma AsWrittenStep(init: seq<Key>, best: Key, x: Key)
    requires forall q :: q in init ==> !LaterAsWritten(q, best)
    requires LaterAsWritten(x, best)
    ensures forall q :: q in init ==> !LaterAsWritten(q, x)
  {
    forall q | q in init ensures !LaterAsWritten(q, x) {
      if LaterAsWritten(q, x) {
        LaterAsWrittenTransitive(q, x, best);
      }
    }
  }

  /** By code point 二 (U+4E8C) follows 三 (U+4E09): with the second and
      third quarters of a year filed, the source takes the second as the
      newest, where the calendar order takes the third. */
  lemma SecondQuarterOutranksThird()
    ensures NewestAsWritten([Quarter(2024, Three), Quarter(2024, Two)]) == Quarter(2024, Two)
    ensures Newest([Quarter(2024, Three), Quarter(2024, Two)]) == Quarter(2024, Three)
  {
    var q2, q3 := Quarter(2024, Two), Quarter(2024, Three);
    assert StrLess(Period(Three), Period(Two));
    assert LaterAsWritten(q2, q3);
  }

  /** Labels compare by their numerals' code points: 一 (U+4E00), then
      三 (U+4E09), 二 (U+4E8C) and 四 (U+56DB). */
  lemma PeriodLess(a: Numeral, b: Numeral)
    ensures StrLess(Period(a), Period(b)) <==> NumeralChar(a) < NumeralChar(b)
  {
    if a == b {
      StrLessIrreflexive(Period(a));
    }
  }

  /** Of two distinct quarter keys, one is later as written. */
  lemma LaterAsWrittenTotal(a: Key, b: Key)
    requires a.Quarter? && b.Quarter?
    ensures a == b || LaterAsWritten(a, b) || LaterAsWritten(b, a)
  {
    PeriodLess(a.numeral, b.numeral);
    PeriodLess(b.numeral, a.numeral);
  }

  /** The latest year with a quarterly report has its second and third
      quarters filed, but not its fourth. */
  ghost predicate SecondAndThirdLatest(d: Dict)
  {
    exists y :: Quarter(y, Two) in d.values && Quarter(y, Three) in d.values && Quarter(y, Four) !in d.values &&
      forall q :: q in d.values && q.Quarter? ==> q.year <= y
  }

  /** The two orders choose different newest quarters exactly when the
      latest year has its second and third quarters but not its fourth; the
      calendar then takes the third and the code the second. */
  lemma NewestOrdersDiffer(d: Dict)
    requires Consistent(d)
    ensures NewestQuarter(d, Calendar) != NewestQuarter(d, AsWritten) <==> SecondAndThirdLatest(d)
    ensures NewestQuarter(d, Calendar) != NewestQuarter(d, AsWritten) ==>
      NewestQuarter(d, Calendar).Some? &&
      var y := NewestQuarter(d, Calendar).value.year;
      NewestQuarter(d, Calendar) == Some(Quarter(y, Three)) && NewestQuarter(d, AsWritten) == Some(Quarter(y, Two))
  {
    if NewestQuarter(d, Calendar) != NewestQuarter(d, AsWritten) {
      DifferentNewest(d);
    }
    if SecondAndThirdLatest(d) {
      SecondAndThirdNewest(d);
    }
  }

  lemma DifferentNewest(d: Dict)
    requires Consistent(d) && NewestQuarter(d, Calendar) != NewestQuarter(d, AsWritten)
    ensures NewestQuarter(d, Calendar).Some? && SecondAndThirdLatest(d)
    ensures var y := NewestQuarter(d, Calendar).value.year;
      NewestQuarter(d, Calendar) == Some(Quarter(y, Three)) && NewestQuarter(d, AsWritten) == Some(Quarter(y, Two))
  {
    var qs := QuarterKeys(d.keys);
    KindMembers(d.keys);
    Candidates(d);
    var c, a := NewestIn(Calendar, qs), NewestIn(AsWritten, qs);
    NewestInLatest(Calendar, qs);
    NewestInLatest(AsWritten, qs);
    PeriodLess(c.numeral, a.numeral);
    assert Later(c, a) && LaterAsWritten(a, c);
    var y := c.year;
    assert c == Quarter(y, Three) && a == Quarter(y, Two);
    assert Quarter(y, Four) !in qs;
    assert forall q :: q in d.values && q.Quarter? ==> q in qs && q.year <= y;
  }

  lemma SecondAndThirdNewest(d: Dict)
    requires Consistent(d) && SecondAndThirdLatest(d)
    ensures NewestQuarter(d, Calendar).Some?
    ensures var y := NewestQuarter(d, Calendar).value.year;
      NewestQuarter(d, Calendar) == Some(Quarter(y, Three)) && NewestQuarter(d, AsWritten) == Some(Quarter(y, Two))
  {
    var y :| Quarter(y, Two) in d.values && Quarter(y, Three) in d.values && Quarter(y, Four) !in d.values &&
      forall q :: q in d.values && q.Quarter? ==> q.year <= y;
    var qs := QuarterKeys(d.keys);
    KindMembers(d.keys);
    assert Quarter(y, Two) in qs && Quarter(y, Three) in qs;
    OnlyFourthFollows(y);
    NewestOfLatestYear(d, qs, y, Calendar, Quarter(y, Three));
    NewestOfLatestYear(d, qs, y, AsWritten, Quarter(y, Two));
  }

  /** Within a year only the fourth quarter follows the third by calendar,
      and only the fourth follows the second as written. */
  lemma OnlyFourthFollows(y: int)
    ensures forall m: Numeral :: LaterIn(Calendar, Quarter(y, m), Quarter(y, Three)) ==> m == Four
    ensures forall m: Numeral :: LaterIn(AsWritten, Quarter(y, m), Quarter(y, Two)) ==> m == Four
  {
    forall m: Numeral ensures LaterIn(AsWritten, Quarter(y, m), Quarter(y, Two)) ==> m == Four {
      PeriodLess(Two, m);
    }
  }

  /** A filed quarter `n` of the latest year `y` that only the unfiled
      fourth quarter of `y` could follow in order `o` is the newest. */
  lemma NewestOfLatestYear(d: Dict, qs: seq<Key>, y: int, o: QuarterOrder, n: Key)
    requires Consistent(d) && qs == QuarterKeys(d.keys) && n in qs && n.Quarter? && n.year == y
    requires forall q :: q in d.values && q.Quarter? ==> q.year <= y
    requires Quarter(y, Four) !in d.values
    requires forall m: Numeral :: LaterIn(o, Quarter(y, m), n) ==> m == Four
    ensures NewestQuarter(d, o) == Some(n)
  {
    Candidates(d);
    NewestInLatest(o, qs);
    var r := NewestIn(o, qs);
    assert r.Quarter? && r in d.values && r.year <= y;
    assert r == n || LaterIn(o, r, n);
    assert r.year == y && Quarter(y, r.numeral) == r;
  }

  /** The selection the code returns differs from the intended one exactly
      when the latest year has its second and third quarters but not its
      fourth. */
  lemma SelectionsDiffer(d: Dict)
    requires Consistent(d)
    ensures Selection(d, Calendar) != Selection(d, AsWritten) <==> SecondAndThirdLatest(d)
  {
    NewestOrdersDiffer(d);
    if NewestQuarter(d, Calendar) != NewestQuarter(d, AsWritten) {
      SelectionKeys(d, Calendar);
      SelectionKeys(d, AsWritten);
      var n := |AnnualKeys(LastThree(d))|;
      assert Selection(d, Calendar).keys[n] == NewestQuarter(d, Calendar).value;
      assert Selection(d, AsWritten).keys[n] == NewestQuarter(d, AsWritten).value;
    }
  }

  // ---------------------------------------------------------------------
  // `get_initial_balance` and the column names of `calc_indicators`

  /** `get_initial_balance`: the loaded report whose balance sheet gives
      the opening balance of report `key`, or `None` when the three
      subjects are all `None`. */
  function OpeningReport(loaded: seq<Key>, key: Key): (r: Option<Key>)
    ensures r.Some? ==> r.value in loaded && r.value == Annual(key.year - 1)
    ensures r.None? <==> Annual(key.year - 1) !in loaded
  {
    var prev := Annual(key.year - 1);
    if prev in loaded then Some(prev) else None
  }

  /** A quarter opens with the balance of the year before, as the annual
      report of its own year does. */
  lemma QuarterOpensLikeYear(loaded: seq<Key>, y: int, p: Numeral)
    ensures OpeningReport(loaded, Quarter(y, p)) == OpeningReport(loaded, Annual(y))
  {
  }

  /** Only the selected reports are loaded, so the oldest selected annual
      report has no opening balance. */
  lemma OldestHasNoOpening(d: Dict, o: QuarterOrder)
    requires Consistent(d) && |LastThree(d)| > 0
    ensures OpeningReport(Selection(d, o).keys, Annual(LastThree(d)[0])).None?
  {
    SelectionKinds(d, o);
    LastThreeIncreasing(d);
    OldestNotPreceded(Selection(d, o).keys, LastThree(d));
  }

  /** Among keys whose annual years increase, the first annual report has
      no opening balance. */
  lemma OldestNotPreceded(ks: seq<Key>, ys: seq<int>)
    requires AnnualYears(ks) == ys && Increasing(ys) && |ys| > 0
    ensures OpeningReport(ks, Annual(ys[0])).None?
  {
    KindMembers(ks);
    assert ys[0] - 1 !in ys;
  }

  /** The column name of report `key`: `f"{y}年"` or `f"{y}年{period}"`,
      the year's digits first, then `年`, then a quarter's label. */
  function ReportName(key: Key): (r: string)
    ensures var y := IntToString(key.year);
      |r| > |y| && r[..|y|] == y && r[|y|] == '年' &&
      r[|y| + 1..] == (if key.Annual? then "" else Period(key.numeral))
  {
    match key
    case Annual(y) => IntToString(y) + "年"
    case Quarter(y, n) => IntToString(y) + "年" + Period(n)
  }

  /** Distinct reports get distinct columns. */
  lemma ReportNameInjective(a: Key, b: Key)
    requires ReportName(a) == ReportName(b)
    ensures a == b
  {
    var na, nb := ReportName(a), ReportName(b);
    assert a.Annual? <==> na[|na| - 1] == '年';
    assert b.Annual? <==> nb[|nb| - 1] == '年';
    if a.Annual? && b.Annual? {
      assert IntToString(a.year) == na[..|na| - 1];
      assert IntToString(b.year) == nb[..|nb| - 1];
      IntToStringInjective(a.year, b.year);
    } else if a.Quarter? && b.Quarter? {
      assert IntToString(a.year) == na[..|na| - 4];
      assert IntToString(b.year) == nb[..|nb| - 4];
      IntToStringInjective(a.year, b.year);
      assert NumeralChar(a.numeral) == na[|na| - 3] == NumeralChar(b.numeral);
    }
  }

  /** Every selected report gets a column of its own. */
  lemma SelectionNamesDistinct(d: Dict, o: QuarterOrder)
    requires Consistent(d)
    ensures var ks := Selection(d, o).keys;
      forall i, j :: 0 <= i < j < |ks| ==> ReportName(ks[i]) != ReportName(ks[j])
  {
    var ks := Selection(d, o).keys;
    SelectionSubset(d, o);
    forall i, j | 0 <= i < j < |ks| ensures ReportName(ks[i]) != ReportName(ks[j]) {
      if ReportName(ks[i]) == ReportName(ks[j]) {
        ReportNameInjective(ks[i], ks[j]);
      }
    }
  }
}
