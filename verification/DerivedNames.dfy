/** Names a detection sensor derives from what it is reported: the identities of
    go/sensor_face.go and the labels of go/sensor_object.go. */
module DerivedNames {
  import opened GoValues
  import opened StoreLayout
  import opened DeepEquality
  import opened SensorProtocol
  import SensorObjects

  // ---- strings in Go's order ----

  predicate Before(a: string, b: string) {
    if b == "" then false
    else if a == "" then true
    else if a[0] != b[0] then a[0] < b[0]
    else Before(a[1..], b[1..])
  }

  /** Byte by byte: the first difference decides, and a proper prefix comes first. */
  lemma {:induction false} BeforeIsLexicographic(a: string, b: string)
    ensures Before(a, b) <==> exists n: nat :: FirstDifference(a, b, n)
    decreases |a|
  {
    if a != "" && b != "" && a[0] == b[0] {
      BeforeIsLexicographic(a[1..], b[1..]);
      if n: nat :| FirstDifference(a[1..], b[1..], n) {
        assert a == [a[0]] + a[1..] && b == [b[0]] + b[1..];
        assert a[..n + 1] == [a[0]] + a[1..][..n] && b[..n + 1] == [b[0]] + b[1..][..n];
        assert FirstDifference(a, b, n + 1);
      }
      if n: nat :| FirstDifference(a, b, n) {
        assert n > 0;
        assert a[1..][..n - 1] == a[..n][1..] && b[1..][..n - 1] == b[..n][1..];
        assert FirstDifference(a[1..], b[1..], n - 1);
      }
    } else if Before(a, b) {
      assert a[..0] == [] && b[..0] == [];
      assert FirstDifference(a, b, 0);
    } else {
      forall n: nat | FirstDifference(a, b, n) ensures n == 0 {
        if n > 0 { SameStart(a, b, n); }
      }
    }
  }

  lemma SameStart(a: string, b: string, n: nat)
    requires FirstDifference(a, b, n) && n > 0
    ensures a != "" && a[0] == b[0]
  {
    assert a[..n][0] == b[..n][0];
  }

  predicate FirstDifference(a: string, b: string, n: nat) {
    n <= |a| && n < |b| && a[..n] == b[..n] && (n == |a| || a[n] < b[n])
  }

  lemma {:induction false} BeforeIsTotal(a: string, b: string)
    ensures a == b || Before(a, b) || Before(b, a)
    ensures !(Before(a, b) && Before(b, a)) && !Before(a, a)
    decreases |a|
  {
    if a != "" && b != "" && a[0] == b[0] {
      BeforeIsTotal(a[1..], b[1..]);
      assert a == [a[0]] + a[1..] && b == [b[0]] + b[1..];
    }
    if a != "" {
      BeforeIsTotal(a[1..], a[1..]);
    }
  }

  lemma {:induction false} BeforeIsTransitive(a: string, b: string, c: string)
    requires Before(a, b) && Before(b, c)
    ensures Before(a, c)
    decreases |a|
  {
    if a != "" && a[0] == b[0] == c[0] {
      BeforeIsTransitive(a[1..], b[1..], c[1..]);
    }
  }

  predicate AtMost(a: string, b: string) {
    a == b || Before(a, b)
  }

  ghost predicate Sorted(xs: seq<string>) {
    forall i, j | 0 <= i < j < |xs| :: AtMost(xs[i], xs[j])
  }

  ghost predicate StrictlySorted(xs: seq<string>) {
    forall i, j | 0 <= i < j < |xs| :: Before(xs[i], xs[j])
  }

  ghost predicate Distinct(xs: seq<string>) {
    forall i, j | 0 <= i < j < |xs| :: xs[i] != xs[j]
  }

  ghost function Members(xs: seq<string>): set<string> {
    set x | x in xs
  }

  lemma MembersSnoc(xs: seq<string>, x: string)
    ensures Members(xs + [x]) == Members(xs) + {x}
  {
  }

  lemma NoMembers(xs: seq<string>)
    ensures Members(xs) == {} <==> xs == []
  {
    if xs != [] {
      assert xs[0] in Members(xs);
    }
  }

  // ---- mergeSortedUnique ----

  /** What `slices.Sort` computes. */
  function SortStrings(xs: seq<string>): seq<string>
    decreases |xs|
  {
    if xs == [] then [] else Insert(SortStrings(xs[..|xs| - 1]), xs[|xs| - 1])
  }

  function Insert(xs: seq<string>, x: string): seq<string>
    decreases |xs|
  {
    if xs == [] then [x]
    else if AtMost(xs[|xs| - 1], x) then xs + [x]
    else Insert(xs[..|xs| - 1], x) + [xs[|xs| - 1]]
  }

  lemma {:induction false} InsertMembers(xs: seq<string>, x: string)
    ensures Members(Insert(xs, x)) == Members(xs) + {x}
    decreases |xs|
  {
    if xs != [] && !AtMost(xs[|xs| - 1], x) {
      InsertMembers(xs[..|xs| - 1], x);
      MembersSnoc(Insert(xs[..|xs| - 1], x), xs[|xs| - 1]);
      MembersSnoc(xs[..|xs| - 1], xs[|xs| - 1]);
      assert xs == xs[..|xs| - 1] + [xs[|xs| - 1]];
    }
  }

  lemma SortedSnoc(xs: seq<string>, last: string)
    requires Sorted(xs) && forall x | x in Members(xs) :: AtMost(x, last)
    ensures Sorted(xs + [last])
  {
    forall i | 0 <= i < |xs| ensures AtMost(xs[i], last) {
      assert xs[i] in Members(xs);
    }
  }

  lemma {:induction false} InsertSorts(xs: seq<string>, x: string)
    requires Sorted(xs)
    ensures Sorted(Insert(xs, x))
    decreases |xs|
  {
    if xs != [] {
      var init, last := xs[..|xs| - 1], xs[|xs| - 1];
      BeforeIsTotal(last, x);
      if AtMost(last, x) {
        forall i | 0 <= i < |xs| ensures AtMost(xs[i], x) {
          if xs[i] != last && last != x { BeforeIsTransitive(xs[i], last, x); }
        }
        SortedSnoc(xs, x);
      } else {
        InsertSorts(init, x);
        InsertMembers(init, x);
        forall y | y in Members(init) ensures AtMost(y, last) {
          var j :| 0 <= j < |init| && init[j] == y;
          assert xs[j] == y;
        }
        SortedSnoc(Insert(init, x), last);
      }
    }
  }

  lemma {:induction false} SortSorts(xs: seq<string>)
    ensures Sorted(SortStrings(xs)) && Members(SortStrings(xs)) == Members(xs)
    decreases |xs|
  {
    if xs != [] {
      SortSorts(xs[..|xs| - 1]);
      InsertMembers(SortStrings(xs[..|xs| - 1]), xs[|xs| - 1]);
      InsertSorts(SortStrings(xs[..|xs| - 1]), xs[|xs| - 1]);
      assert xs == xs[..|xs| - 1] + [xs[|xs| - 1]];
    }
  }

  /** What `slices.Compact` computes: runs of equal elements become one. */
  function Compact(xs: seq<string>): seq<string>
    decreases |xs|
  {
    if |xs| <= 1 then xs
    else
      var init := Compact(xs[..|xs| - 1]);
      if xs[|xs| - 1] == xs[|xs| - 2] then init else init + [xs[|xs| - 1]]
  }

  lemma {:induction false} CompactMembers(xs: seq<string>)
    ensures Members(Compact(xs)) == Members(xs)
    decreases |xs|
  {
    if |xs| > 1 {
      var init, last := xs[..|xs| - 1], xs[|xs| - 1];
      CompactMembers(init);
      assert xs == init + [last];
      MembersSnoc(init, last);
      if last == init[|init| - 1] {
        assert last in init;
      } else {
        MembersSnoc(Compact(init), last);
      }
    }
  }

  lemma {:induction false} CompactIsStrict(xs: seq<string>)
    requires Sorted(xs)
    ensures StrictlySorted(Compact(xs))
    decreases |xs|
  {
    if |xs| > 1 {
      var init, last := xs[..|xs| - 1], xs[|xs| - 1];
      CompactIsStrict(init);
      CompactMembers(init);
      if last != init[|init| - 1] {
        forall x | x in Members(init) ensures Before(x, last) {
          var j :| 0 <= j < |init| && init[j] == x;
          BelowTheLast(xs, j);
        }
        StrictSnoc(Compact(init), last);
      }
    }
  }

  lemma StrictSnoc(xs: seq<string>, last: string)
    requires StrictlySorted(xs) && forall x | x in Members(xs) :: Before(x, last)
    ensures StrictlySorted(xs + [last])
  {
    forall i | 0 <= i < |xs| ensures Before(xs[i], last) {
      assert xs[i] in Members(xs);
    }
  }

  lemma BelowTheLast(xs: seq<string>, j: nat)
    requires Sorted(xs) && j < |xs| - 1 && xs[|xs| - 1] != xs[|xs| - 2]
    ensures Before(xs[j], xs[|xs| - 1])
  {
    var m := |xs| - 2;
    if xs[j] != xs[m] {
      BeforeIsTransitive(xs[j], xs[m], xs[m + 1]);
    }
  }

  function MergeSortedUnique(previous: seq<string>, next: seq<string>): seq<string> {
    Compact(SortStrings(previous + next))
  }

  /** The strictly sorted union of the two lists, whatever shape they came in. */
  lemma MergeIsSortedUnion(previous: seq<string>, next: seq<string>)
    ensures StrictlySorted(MergeSortedUnique(previous, next))
    ensures Members(MergeSortedUnique(previous, next)) == Members(previous) + Members(next)
  {
    SortSorts(previous + next);
    CompactIsStrict(SortStrings(previous + next));
    CompactMembers(SortStrings(previous + next));
  }

  /** Strict order leaves one way to write down a set of names. */
  lemma {:induction false} StrictListIsUnique(xs: seq<string>, ys: seq<string>)
    requires StrictlySorted(xs) && StrictlySorted(ys) && Members(xs) == Members(ys)
    ensures xs == ys
    decreases |xs|
  {
    NoMembers(xs);
    NoMembers(ys);
    if xs != [] {
      var x, y := xs[|xs| - 1], ys[|ys| - 1];
      assert y in Members(xs) && x in Members(ys);
      LastIsGreatest(xs, y);
      LastIsGreatest(ys, x);
      BeforeIsTotal(x, y);
      MembersWithoutLast(xs);
      MembersWithoutLast(ys);
      StrictListIsUnique(xs[..|xs| - 1], ys[..|ys| - 1]);
      assert xs == xs[..|xs| - 1] + [x] && ys == ys[..|ys| - 1] + [y];
    }
  }

  lemma LastIsGreatest(xs: seq<string>, x: string)
    requires StrictlySorted(xs) && x in xs
    ensures AtMost(x, xs[|xs| - 1])
  {
  }

  lemma MembersWithoutLast(xs: seq<string>)
    requires StrictlySorted(xs) && xs != []
    ensures Members(xs[..|xs| - 1]) == Members(xs) - {xs[|xs| - 1]}
  {
    var init, last := xs[..|xs| - 1], xs[|xs| - 1];
    assert xs == init + [last];
    forall i | 0 <= i < |init| ensures init[i] != last {
      BeforeIsTotal(xs[i], last);
      assert Before(xs[i], xs[|xs| - 1]);
    }
  }

  // ---- normalizeReportedDetections ----

  datatype Report = Report(detected: bool, detections: seq<Record>)

  const FULL_FRAME := Box(0.0, 0.0, 1.0, 1.0)

  function WithBox(r: Record): Record {
    if r.detection.box.None? then r.(detection := r.detection.(box := Some(FULL_FRAME))) else r
  }

  /** `out` is the reported detection, its box filled in with the whole frame if it has none. */
  predicate Boxed(out: Record, reported: Record) {
    if reported.detection.box.Some? then out == reported
    else out == reported.(detection := reported.detection.(box := Some(Box(0.0, 0.0, 1.0, 1.0))))
  }

  /** The list that stands for a report: nothing, every reported detection in its place,
      or the fallback where a detection without details was reported. */
  predicate StandsFor(list: seq<Record>, report: Report, fallback: Record) {
    if !report.detected then list == []
    else if report.detections == [] then list == [fallback]
    else |list| == |report.detections| && forall i | 0 <= i < |list| :: Boxed(list[i], report.detections[i])
  }

  lemma NormalizedStandsFor(report: Report, fallback: Record)
    ensures StandsFor(NormalizeReported(report.detected, report.detections, fallback), report, fallback)
  {
  }

  function NormalizeReported(detected: bool, reports: seq<Record>, fallback: Record): seq<Record> {
    if !detected then []
    else if reports == [] then [fallback]
    else seq(|reports|, i requires 0 <= i < |reports| => WithBox(reports[i]))
  }

  method NormalizeReportedDetections(detected: bool, reports: seq<Record>, fallback: Record) returns (out: seq<Record>)
    requires fallback.detection.box == Some(FULL_FRAME)
    ensures !detected ==> out == []
    ensures detected && reports == [] ==> out == [fallback]
    ensures detected && reports != [] ==> |out| == |reports| && forall i | 0 <= i < |reports| :: Boxed(out[i], reports[i])
    ensures forall r | r in out :: r.detection.box.Some?
    ensures out == NormalizeReported(detected, reports, fallback)
  {
    if !detected {
      return [];
    }
    if reports != [] {
      out := reports;
      for i := 0 to |out|
        invariant |out| == |reports|
        invariant forall j | 0 <= j < i :: out[j] == WithBox(reports[j])
        invariant forall j | i <= j < |out| :: out[j] == reports[j]
      {
        if out[i].detection.box.None? {
          out := out[i := WithBox(out[i])];
        }
      }
      return;
    }
    return [fallback];
  }

  // ---- lists as property values ----

  function Names(xs: seq<string>): Val {
    List(seq(|xs|, i requires 0 <= i < |xs| => Str(xs[i])))
  }

  function Records(rs: seq<Record>): Val {
    List(seq(|rs|, i requires 0 <= i < |rs| => Struct(rs[i])))
  }

  /** `GetIdentities`, `GetLabels`: the stored list, nothing if the property is unset. */
  function StringsOf(v: Val): seq<string> {
    if v.List? && (forall i | 0 <= i < |v.items| :: v.items[i].Str?) then
      seq(|v.items|, i requires 0 <= i < |v.items| => v.items[i].s)
    else []
  }

  function RecordsOf(v: Val): seq<Record> {
    if v.List? && (forall i | 0 <= i < |v.items| :: v.items[i].Struct?) then
      seq(|v.items|, i requires 0 <= i < |v.items| => v.items[i].record)
    else []
  }

  lemma NamesRoundTrip(xs: seq<string>)
    ensures StringsOf(Names(xs)) == xs
  {
  }

  lemma RecordsRoundTrip(rs: seq<Record>)
    ensures RecordsOf(Records(rs)) == rs
  {
  }

  /** Lists of names that are equal up to order have the same members, and one has
      duplicates only if the other has. */
  lemma PermutedNames(xs: seq<string>, ys: seq<string>)
    requires Equal(Names(xs), Names(ys), true)
    ensures Members(xs) == Members(ys)
    ensures Distinct(ys) ==> Distinct(xs)
  {
    var p := Pairing(Names(xs).items, Names(ys).items);
    forall i | 0 <= i < |xs| ensures xs[i] == ys[p[i]] {
      assert Equal(Names(xs).items[i], Names(ys).items[p[i]], true);
    }
    forall y | y in ys ensures y in xs {
      var j :| 0 <= j < |ys| && ys[j] == y;
      PermutationIsOnto(p, |ys|, j);
      var i :| 0 <= i < |p| && p[i] == j;
      assert xs[i] == y;
    }
    if Distinct(ys) {
      forall i, j | 0 <= i < j < |xs| ensures xs[i] != xs[j] {
        var a, b := p[i], p[j];
        assert a != b;
        if a < b { assert ys[a] != ys[b]; } else { assert ys[b] != ys[a]; }
      }
    }
  }

  /** The same elements as often, in some order. */
  ghost predicate Reordered<T>(xs: seq<T>, ys: seq<T>) {
    |xs| == |ys| && exists p :: IsPermutation(p, |ys|) && Follows(xs, ys, p)
  }

  ghost predicate Follows<T>(xs: seq<T>, ys: seq<T>, p: seq<nat>)
    requires |xs| == |ys| && IsPermutation(p, |ys|)
  {
    forall i | 0 <= i < |xs| :: xs[i] == ys[p[i]]
  }

  lemma PermutedRecords(rs: seq<Record>, qs: seq<Record>)
    ensures Equal(Records(rs), Records(qs), true) <==> Reordered(rs, qs)
  {
    if Equal(Records(rs), Records(qs), true) {
      var p := Pairing(Records(rs).items, Records(qs).items);
      forall i | 0 <= i < |rs| ensures rs[i] == qs[p[i]] {
        assert Equal(Records(rs).items[i], Records(qs).items[p[i]], true);
      }
      assert Follows(rs, qs, p);
    }
    if Reordered(rs, qs) {
      var p :| IsPermutation(p, |qs|) && Follows(rs, qs, p);
      assert EqualAlong(Records(rs).items, Records(qs).items, p);
    }
  }

  lemma ReorderedMembers<T(!new)>(xs: seq<T>, ys: seq<T>)
    requires Reordered(xs, ys)
    ensures forall x :: x in xs <==> x in ys
  {
    var p :| IsPermutation(p, |ys|) && Follows(xs, ys, p);
    forall y | y in ys ensures y in xs {
      var j :| 0 <= j < |ys| && ys[j] == y;
      PermutationIsOnto(p, |ys|, j);
      var i :| 0 <= i < |p| && p[i] == j;
      assert xs[i] == y;
    }
  }

  /** Two lists without repetition that have the same members are equal as multisets. */
  lemma SameMembersSameNames(xs: seq<string>, ys: seq<string>)
    requires Distinct(xs) && Distinct(ys) && Members(xs) == Members(ys)
    ensures Equal(Names(xs), Names(ys), true)
  {
    var p := Positions(xs, ys);
    assert Members(xs) == Members(ys);
    DistinctSize(xs);
    DistinctSize(ys);
    assert EqualAlong(Names(xs).items, Names(ys).items, p);
  }

  lemma {:induction false} DistinctSize(xs: seq<string>)
    requires Distinct(xs)
    ensures |Members(xs)| == |xs|
    decreases |xs|
  {
    NoMembers(xs);
    if xs != [] {
      var init, last := xs[..|xs| - 1], xs[|xs| - 1];
      DistinctSize(init);
      assert xs == init + [last];
      MembersSnoc(init, last);
      assert last !in Members(init);
    }
  }

  lemma Positions(xs: seq<string>, ys: seq<string>) returns (p: seq<nat>)
    requires Distinct(xs) && Members(xs) == Members(ys)
    ensures |p| == |xs| && forall i | 0 <= i < |xs| :: p[i] < |ys| && ys[p[i]] == xs[i]
    ensures forall i, j | 0 <= i < j < |xs| :: p[i] != p[j]
  {
    p := [];
    while |p| < |xs|
      invariant |p| <= |xs|
      invariant forall i | 0 <= i < |p| :: p[i] < |ys| && ys[p[i]] == xs[i]
    {
      assert xs[|p|] in Members(xs);
      var j :| 0 <= j < |ys| && ys[j] == xs[|p|];
      p := p + [j];
    }
  }

  lemma Pairing(xs: seq<Val>, ys: seq<Val>) returns (p: seq<nat>)
    requires Equal(List(xs), List(ys), true)
    ensures |xs| == |ys| && IsPermutation(p, |xs|) && EqualAlong(xs, ys, p)
  {
    p :| IsPermutation(p, |xs|) && EqualAlong(xs, ys, p);
  }

  // ---- what a report leaves in the property store ----

  function LastReport(reports: seq<Report>): Report {
    if reports == [] then Report(false, []) else reports[|reports| - 1]
  }

  /** The flag and the detections of the report, the list perhaps in an older order. */
  ghost predicate HoldsReport(props: Values, report: Report, fallback: Record) {
    && "detected" in props && props["detected"] == Bool(report.detected)
    && "detections" in props
    && exists list, stored :: props["detections"] == Records(stored) && Reordered(stored, list) && StandsFor(list, report, fallback)
  }

  lemma ReportWritten(props: Values, state: Values, before: Report, report: Report, fallback: Record)
    requires HoldsReport(props, before, fallback)
    requires "detected" in state && state["detected"] == Bool(report.detected)
    requires "detections" in state
    requires state["detections"] == Records(NormalizeReported(report.detected, report.detections, fallback))
    ensures HoldsReport(props + WriteDelta(props, state), report, fallback)
  {
    var list := NormalizeReported(report.detected, report.detections, fallback);
    var after := props + WriteDelta(props, state);
    NormalizedStandsFor(report, fallback);
    ListsEqualThemselves(list, []);
    WrittenList(props, state, "detections");
    WrittenFlag(props, state, "detected");
    var former, stored :| props["detections"] == Records(stored) && Reordered(stored, former) && StandsFor(former, before, fallback);
    if after["detections"] == props["detections"] {
      PermutedRecords(stored, list);
      assert after["detections"] == Records(stored);
    } else {
      PermutedRecords(list, list);
      assert after["detections"] == Records(list);
    }
  }

  lemma NothingReported(props: Values, fallback: Record)
    requires "detected" in props && props["detected"] == Bool(false)
    requires "detections" in props && props["detections"] == Records([])
    ensures HoldsReport(props, Report(false, []), fallback)
  {
    var empty: seq<Record> := [];
    var p: seq<nat> := [];
    assert IsPermutation(p, |empty|) && Follows(empty, empty, p);
    assert Reordered(empty, empty) && StandsFor(empty, Report(false, []), fallback);
  }

  /** What the store holds, read with the sensor's getters. */
  lemma HeldReport(props: Values, report: Report, fallback: Record)
    requires HoldsReport(props, report, fallback)
    ensures Get(props, "detected") == Bool(report.detected)
    ensures var stored := RecordsOf(Get(props, "detections"));
      && (!report.detected ==> stored == [])
      && (report.detected && report.detections == [] ==> stored == [fallback])
      && (report.detected && report.detections != [] ==> ReportedInSomeOrder(stored, report.detections))
  {
    var list, stored :| props["detections"] == Records(stored) && Reordered(stored, list) && StandsFor(list, report, fallback);
    RecordsRoundTrip(stored);
    var p :| IsPermutation(p, |list|) && Follows(stored, list, p);
    if report.detected && report.detections == [] {
      assert stored[0] == list[p[0]];
    } else if report.detected {
      assert EachReported(stored, report.detections, p);
    }
  }

  /** Exactly the reported detections, each as it was reported but for a missing box. */
  ghost predicate ReportedInSomeOrder(stored: seq<Record>, detections: seq<Record>) {
    |stored| == |detections| && exists p :: IsPermutation(p, |detections|) && EachReported(stored, detections, p)
  }

  ghost predicate EachReported(stored: seq<Record>, detections: seq<Record>, p: seq<nat>)
    requires |stored| == |detections| && IsPermutation(p, |detections|)
  {
    forall i | 0 <= i < |stored| :: Boxed(stored[i], detections[p[i]])
  }

  /** Reports of the same detections in another order. */
  ghost predicate SameDetections(report: Report, again: Report) {
    again.detected == report.detected && Reordered(again.detections, report.detections)
  }

  lemma NormalizedReordered(report: Report, again: Report, fallback: Record)
    requires SameDetections(report, again)
    ensures Reordered(NormalizeReported(report.detected, report.detections, fallback),
                      NormalizeReported(again.detected, again.detections, fallback))
  {
    var xs := NormalizeReported(report.detected, report.detections, fallback);
    var ys := NormalizeReported(again.detected, again.detections, fallback);
    if !report.detected || report.detections == [] {
      var p: seq<nat> := if report.detected then [0] else [];
      assert IsPermutation(p, |ys|) && Follows(xs, ys, p);
    } else {
      var p :| IsPermutation(p, |report.detections|) && Follows(again.detections, report.detections, p);
      var q := InverseExists(p, |p|);
      forall j | 0 <= j < |xs| ensures xs[j] == ys[q[j]] {
        assert again.detections[q[j]] == report.detections[p[q[j]]];
      }
      assert Follows(xs, ys, q);
    }
  }

  // ---- faces: identities ----

  const FACE_FALLBACK := FaceRecord(Detection("person", 1.0, Some(FULL_FRAME), "face"), "")

  function Recognized(list: seq<Record>): seq<string>
    decreases |list|
  {
    if list == [] then []
    else
      var init, last := Recognized(list[..|list| - 1]), list[|list| - 1];
      if last.FaceRecord? && last.identity != "" then init + [last.identity] else init
  }

  /** The state `FaceSensor.ReportDetections` writes. */
  function FaceState(props: Values, report: Report): Values {
    var list := NormalizeReported(report.detected, report.detections, FACE_FALLBACK);
    var recognized := Recognized(list);
    var state := map["detected" := Bool(report.detected), "detections" := Records(list)];
    if !report.detected then state["identities" := Names([])]
    else if recognized != [] then
      state["identities" := Names(MergeSortedUnique(StringsOf(Get(props, "identities")), recognized))]
    else state
  }

  ghost function FaceReported(props: Values, report: Report): Values {
    props + WriteDelta(props, FaceState(props, report))
  }

  const FACE_INITIAL: Values := map["detected" := Bool(false), "detections" := Records([]), "identities" := Names([])]

  ghost function FaceRun(reports: seq<Report>): Values
    decreases |reports|
  {
    if reports == [] then map[] + WriteDelta(map[], FACE_INITIAL)
    else FaceReported(FaceRun(reports[..|reports| - 1]), reports[|reports| - 1])
  }

  /** The names among reported detections. */
  ghost function ReportedNames(detections: seq<Record>): set<string> {
    set r | r in detections && r.FaceRecord? && r.identity != "" :: r.identity
  }

  /** The names reported since the last report without a face. */
  ghost function NamesInPhase(reports: seq<Report>): set<string>
    decreases |reports|
  {
    if reports == [] then {}
    else
      var last := reports[|reports| - 1];
      if !last.detected then {} else NamesInPhase(reports[..|reports| - 1]) + ReportedNames(last.detections)
  }

  lemma {:induction false} RecognizedAre(list: seq<Record>)
    ensures Members(Recognized(list)) == ReportedNames(list)
    decreases |list|
  {
    if list != [] {
      var init, last := list[..|list| - 1], list[|list| - 1];
      RecognizedAre(init);
      assert list == init + [last];
      assert ReportedNames(list) ==
             ReportedNames(init) + if last.FaceRecord? && last.identity != "" then {last.identity} else {};
    }
  }

  /** Filling in boxes changes no name. */
  lemma NormalizedNames(detections: seq<Record>)
    ensures Members(Recognized(NormalizeReported(true, detections, FACE_FALLBACK))) == ReportedNames(detections)
  {
    var list := NormalizeReported(true, detections, FACE_FALLBACK);
    RecognizedAre(list);
    if detections != [] {
      forall r | r in detections ensures WithBox(r) in list {
        var i :| 0 <= i < |detections| && detections[i] == r;
        assert list[i] == WithBox(r);
      }
      forall name ensures name in ReportedNames(list) <==> name in ReportedNames(detections) {
        if name in ReportedNames(list) {
          var i :| 0 <= i < |list| && list[i].FaceRecord? && list[i].identity == name;
          assert detections[i] in detections;
        }
        if name in ReportedNames(detections) {
          var r :| r in detections && r.FaceRecord? && r.identity == name;
          assert WithBox(r) in list;
        }
      }
    }
  }

  ghost predicate HoldsNames(v: Val, names: set<string>) {
    exists xs :: v == Names(xs) && StrictlySorted(xs) && Members(xs) == names
  }

  /** Whether `writeState` takes over a new list of names or keeps the stored one: it
      holds the new names, sorted, either way. */
  lemma SortedNamesWritten(stored: Val, xs: seq<string>, oldNames: set<string>)
    requires StrictlySorted(xs)
    requires HoldsNames(stored, oldNames)
    ensures HoldsNames(if Equal(stored, Names(xs), true) then stored else Names(xs), Members(xs))
  {
    if Equal(stored, Names(xs), true) {
      var ys :| stored == Names(ys) && StrictlySorted(ys) && Members(ys) == oldNames;
      PermutedNames(ys, xs);
    }
  }

  lemma FaceStep(props: Values, report: Report, names: set<string>)
    requires "identities" in props && HoldsNames(props["identities"], names)
    ensures var after := FaceReported(props, report);
      && "identities" in after
      && HoldsNames(after["identities"], if report.detected then names + ReportedNames(report.detections) else {})
  {
    NormalizedNames(report.detections);
    var state, stored := FaceState(props, report), props["identities"];
    var after := FaceReported(props, report);
    var list := NormalizeReported(report.detected, report.detections, FACE_FALLBACK);
    if !report.detected {
      SortedNamesWritten(stored, [], names);
      assert state["identities"] == Names([]);
    } else if Recognized(list) != [] {
      var xs :| stored == Names(xs) && StrictlySorted(xs) && Members(xs) == names;
      NamesRoundTrip(xs);
      MergeIsSortedUnion(xs, Recognized(list));
      SortedNamesWritten(stored, MergeSortedUnique(xs, Recognized(list)), names);
      assert state["identities"] == Names(MergeSortedUnique(xs, Recognized(list)));
    } else {
      assert Members(Recognized(list)) == {};
      assert names + {} == names;
      assert after["identities"] == stored;
    }
  }

  lemma {:induction false} FaceRunHolds(reports: seq<Report>)
    ensures var props := FaceRun(reports);
      "identities" in props && HoldsNames(props["identities"], NamesInPhase(reports))
    decreases |reports|
  {
    if reports == [] {
      var empty: seq<string> := [];
      assert Names(empty) == FaceRun([])["identities"] && StrictlySorted(empty) && Members(empty) == {};
    } else {
      FaceRunHolds(reports[..|reports| - 1]);
      FaceStep(FaceRun(reports[..|reports| - 1]), reports[|reports| - 1], NamesInPhase(reports[..|reports| - 1]));
    }
  }

  /** After every run of reports `identities` is the strictly sorted list of the names
      recognized since the last report without a face, and no other list would be. */
  lemma IdentitiesAreTheNamesInPhase(reports: seq<Report>)
    ensures var identities := StringsOf(Get(FaceRun(reports), "identities"));
      && StrictlySorted(identities)
      && Members(identities) == NamesInPhase(reports)
      && forall ys | StrictlySorted(ys) && Members(ys) == NamesInPhase(reports) :: ys == identities
  {
    FaceRunHolds(reports);
    var xs :| FaceRun(reports)["identities"] == Names(xs) && StrictlySorted(xs) && Members(xs) == NamesInPhase(reports);
    NamesRoundTrip(xs);
    forall ys | StrictlySorted(ys) && Members(ys) == NamesInPhase(reports) ensures ys == xs {
      StrictListIsUnique(ys, xs);
    }
  }

  lemma FaceHoldsNothingFirst()
    ensures HoldsReport(FaceRun([]), Report(false, []), FACE_FALLBACK)
  {
    NothingReported(FaceRun([]), FACE_FALLBACK);
  }

  lemma FaceStepReport(props: Values, before: Report, report: Report)
    requires HoldsReport(props, before, FACE_FALLBACK)
    ensures HoldsReport(FaceReported(props, report), report, FACE_FALLBACK)
  {
    ReportWritten(props, FaceState(props, report), before, report, FACE_FALLBACK);
  }

  lemma {:induction false} FaceRunHoldsReport(reports: seq<Report>)
    ensures HoldsReport(FaceRun(reports), LastReport(reports), FACE_FALLBACK)
    decreases |reports|
  {
    if reports == [] {
      FaceHoldsNothingFirst();
    } else {
      var init, last := reports[..|reports| - 1], reports[|reports| - 1];
      FaceRunHoldsReport(init);
      FaceStepReport(FaceRun(init), LastReport(init), last);
    }
  }

  /** After every run of reports a face sensor holds the flag and the detections of the
      last one. */
  lemma FaceHoldsTheLastReport(reports: seq<Report>)
    ensures var props, last := FaceRun(reports), LastReport(reports);
      var stored := RecordsOf(Get(props, "detections"));
      && Get(props, "detected") == Bool(last.detected)
      && (!last.detected ==> stored == [])
      && (last.detected && last.detections == [] ==>
            stored == [FaceRecord(Detection("person", 1.0, Some(Box(0.0, 0.0, 1.0, 1.0)), "face"), "")])
      && (last.detected && last.detections != [] ==> ReportedInSomeOrder(stored, last.detections))
  {
    FaceRunHoldsReport(reports);
    HeldReport(FaceRun(reports), LastReport(reports), FACE_FALLBACK);
  }

  /** The names once added are not added again. */
  lemma MergedAgain(stored: Val, names: set<string>, recognized: seq<string>)
    requires HoldsNames(stored, names) && Members(recognized) <= names
    ensures Equal(stored, Names(MergeSortedUnique(StringsOf(stored), recognized)), true)
  {
    var xs :| stored == Names(xs) && StrictlySorted(xs) && Members(xs) == names;
    NamesRoundTrip(xs);
    MergeIsSortedUnion(xs, recognized);
    assert Members(xs) + Members(recognized) == Members(xs);
    StrictListIsUnique(MergeSortedUnique(xs, recognized), xs);
    EqualReflexive(stored, true);
  }

  lemma IdentitiesAgain(props: Values, report: Report, again: Report, names: set<string>)
    requires "identities" in props && HoldsNames(props["identities"], names) && SameDetections(report, again)
    ensures var after := FaceReported(props, report);
      "identities" in FaceState(after, again) ==>
        Equal(Get(after, "identities"), FaceState(after, again)["identities"], true)
  {
    var after := FaceReported(props, report);
    FaceStep(props, report, names);
    ReorderedMembers(again.detections, report.detections);
    if again.detected {
      NormalizedNames(again.detections);
      MergedAgain(after["identities"], names + ReportedNames(report.detections),
                  Recognized(NormalizeReported(true, again.detections, FACE_FALLBACK)));
    } else {
      var xs :| after["identities"] == Names(xs) && Members(xs) == {};
      NoMembers(xs);
      EqualReflexive(Names([]), true);
    }
  }

  /** What a report left at a key equals what the same detections give again. */
  lemma ListAgain(props: Values, state: Values, report: Report, again: Report, fallback: Record)
    requires SameDetections(report, again)
    requires "detected" in state && state["detected"] == Bool(report.detected)
    requires "detections" in state
    requires state["detections"] == Records(NormalizeReported(report.detected, report.detections, fallback))
    ensures var after := props + WriteDelta(props, state);
      && Equal(Get(after, "detected"), Bool(again.detected), true)
      && Equal(Get(after, "detections"), Records(NormalizeReported(again.detected, again.detections, fallback)), true)
  {
    var xs := NormalizeReported(report.detected, report.detections, fallback);
    var ys := NormalizeReported(again.detected, again.detections, fallback);
    NormalizedReordered(report, again, fallback);
    PermutedRecords(xs, ys);
    WriteReadsBack(props, state, "detected");
    WriteReadsBack(props, state, "detections");
    var after := props + WriteDelta(props, state);
    if Get(after, "detections") != Records(xs) {
      EqualTransitive(Get(after, "detections"), Records(xs), Records(ys), true);
    }
  }

  /** Reporting the same faces again, in whatever order, is silent: no property is
      stored, sent or announced. */
  lemma SameFacesAreSilent(props: Values, report: Report, again: Report, names: set<string>)
    requires "identities" in props && HoldsNames(props["identities"], names) && SameDetections(report, again)
    ensures var after := FaceReported(props, report);
      WriteDelta(after, FaceState(after, again)) == map[]
  {
    var after := FaceReported(props, report);
    ListAgain(props, FaceState(props, report), report, again, FACE_FALLBACK);
    IdentitiesAgain(props, report, again, names);
    NothingNew(after, FaceState(after, again));
  }

  /** So after every run a repeated last report is silent. */
  lemma RepeatedFacesAreSilent(reports: seq<Report>, again: Report)
    requires reports != [] && SameDetections(LastReport(reports), again)
    ensures WriteDelta(FaceRun(reports), FaceState(FaceRun(reports), again)) == map[]
  {
    var init := reports[..|reports| - 1];
    FaceRunHolds(init);
    SameFacesAreSilent(FaceRun(init), LastReport(reports), again, NamesInPhase(init));
  }

  lemma NothingNew(props: Values, state: Values)
    requires forall k | k in state :: Equal(Get(props, k), state[k], true)
    ensures WriteDelta(props, state) == map[]
  {
    assert forall k :: k !in WriteDelta(props, state);
  }

  // ---- objects: labels ----

  const OBJECT_FALLBACK := TrackedRecord(Detection("motion", 1.0, Some(FULL_FRAME), ""), 0)

  ghost function LabelSet(list: seq<Record>): set<string> {
    set r | r in list && r.detection.labelText != "" :: r.detection.labelText
  }

  function DedupLabels(list: seq<Record>): (labels: seq<string>)
    decreases |list|
  {
    if list == [] then []
    else
      var init, name := DedupLabels(list[..|list| - 1]), list[|list| - 1].detection.labelText;
      if name == "" || name in init then init else init + [name]
  }

  /** `dedupLabels`, with its `seen` set. */
  method CollectLabels(list: seq<Record>) returns (labels: seq<string>)
    ensures labels == DedupLabels(list)
  {
    labels := [];
    var seen := {};
    for i := 0 to |list|
      invariant labels == DedupLabels(list[..i])
      invariant forall x :: x in seen <==> x in labels
    {
      assert list[..i + 1][..i] == list[..i];
      var name := list[i].detection.labelText;
      if name == "" {
        continue;
      }
      if name in seen {
        continue;
      }
      seen := seen + {name};
      labels := labels + [name];
    }
    assert list[..|list|] == list;
  }

  lemma {:induction false} DedupIsTheLabelSet(list: seq<Record>)
    ensures Distinct(DedupLabels(list)) && Members(DedupLabels(list)) == LabelSet(list)
    decreases |list|
  {
    if list != [] {
      var init, last := list[..|list| - 1], list[|list| - 1];
      DedupIsTheLabelSet(init);
      assert list == init + [last];
      var name := last.detection.labelText;
      assert LabelSet(list) == LabelSet(init) + if name == "" then {} else {name};
      assert name in DedupLabels(init) ==> name in Members(DedupLabels(init));
    }
  }

  /** The state `ObjectSensor.ReportDetections` writes. */
  function ObjectState(report: Report): Values {
    var list := NormalizeReported(report.detected, report.detections, OBJECT_FALLBACK);
    map["detected" := Bool(report.detected), "detections" := Records(list), "labels" := Names(DedupLabels(list))]
  }

  const OBJECT_INITIAL: Values := map["detected" := Bool(false), "detections" := Records([]), "labels" := Names([])]

  ghost function ObjectRun(reports: seq<Report>): Values
    decreases |reports|
  {
    if reports == [] then map[] + WriteDelta(map[], OBJECT_INITIAL)
    else
      var props := ObjectRun(reports[..|reports| - 1]);
      props + WriteDelta(props, ObjectState(reports[|reports| - 1]))
  }

  ghost predicate HoldsLabels(props: Values, report: Report) {
    var list := NormalizeReported(report.detected, report.detections, OBJECT_FALLBACK);
    && "labels" in props && Equal(props["labels"], Names(DedupLabels(list)), true)
    && exists xs :: props["labels"] == Names(xs)
  }

  lemma {:induction false} ListsEqualThemselves(rs: seq<Record>, xs: seq<string>)
    ensures Equal(Records(rs), Records(rs), true) && Equal(Names(xs), Names(xs), true)
  {
    EqualReflexive(Records(rs), true);
    EqualReflexive(Names(xs), true);
  }

  lemma ObjectStep(props: Values, before: Report, report: Report)
    requires HoldsReport(props, before, OBJECT_FALLBACK) && HoldsLabels(props, before)
    ensures HoldsReport(props + WriteDelta(props, ObjectState(report)), report, OBJECT_FALLBACK)
    ensures HoldsLabels(props + WriteDelta(props, ObjectState(report)), report)
  {
    var list := NormalizeReported(report.detected, report.detections, OBJECT_FALLBACK);
    var state := ObjectState(report);
    ReportWritten(props, state, before, report, OBJECT_FALLBACK);
    ListsEqualThemselves(list, DedupLabels(list));
    WrittenList(props, state, "labels");
    assert state["labels"] == Names(DedupLabels(list));
  }

  lemma WrittenFlag(props: Values, state: Values, key: string)
    requires key in props && key in state && props[key].Bool? && state[key].Bool?
    ensures var after := props + WriteDelta(props, state); key in after && after[key] == state[key]
  {
  }

  lemma WrittenList(props: Values, state: Values, key: string)
    requires key in props && key in state && state[key].List? && Equal(state[key], state[key], true)
    ensures var after := props + WriteDelta(props, state);
      && key in after
      && (after[key] == props[key] || after[key] == state[key])
      && Equal(after[key], state[key], true)
  {
  }

  lemma {:induction false} ObjectRunHolds(reports: seq<Report>)
    ensures HoldsReport(ObjectRun(reports), LastReport(reports), OBJECT_FALLBACK)
    ensures HoldsLabels(ObjectRun(reports), LastReport(reports))
    decreases |reports|
  {
    if reports == [] {
      ListsEqualThemselves([], []);
      NothingReported(ObjectRun([]), OBJECT_FALLBACK);
      assert ObjectRun(reports)["labels"] == Names([]);
    } else {
      ObjectRunHolds(reports[..|reports| - 1]);
      ObjectStep(ObjectRun(reports[..|reports| - 1]), LastReport(reports[..|reports| - 1]), reports[|reports| - 1]);
    }
  }

  /** Filling in boxes changes no label. */
  lemma NormalizedLabels(report: Report)
    ensures LabelSet(NormalizeReported(report.detected, report.detections, OBJECT_FALLBACK)) ==
            if !report.detected then {} else if report.detections == [] then {"motion"} else LabelSet(report.detections)
  {
    var list := NormalizeReported(report.detected, report.detections, OBJECT_FALLBACK);
    if report.detected && report.detections == [] {
      assert OBJECT_FALLBACK in list;
    } else if report.detected {
      var detections := report.detections;
      forall name ensures name in LabelSet(list) <==> name in LabelSet(detections) {
        if name in LabelSet(list) {
          var i :| 0 <= i < |list| && list[i].detection.labelText == name;
          assert detections[i] in detections;
        }
        if name in LabelSet(detections) {
          var i :| 0 <= i < |detections| && detections[i].detection.labelText == name;
          assert list[i] in list;
        }
      }
    }
  }

  /** After every run of reports an object sensor holds the flag and the detections of
      the last one, and `labels` has exactly their non-empty labels, each once. */
  lemma LabelsAreTheReportedLabels(reports: seq<Report>)
    ensures var props, last := ObjectRun(reports), LastReport(reports);
      var labels, stored := StringsOf(Get(props, "labels")), RecordsOf(Get(props, "detections"));
      && Get(props, "detected") == Bool(last.detected)
      && (!last.detected ==> stored == [] && labels == [])
      && (last.detected && last.detections == [] ==>
            && stored == [TrackedRecord(Detection("motion", 1.0, Some(Box(0.0, 0.0, 1.0, 1.0)), ""), 0)]
            && labels == ["motion"])
      && (last.detected && last.detections != [] ==>
            && ReportedInSomeOrder(stored, last.detections)
            && Distinct(labels)
            && forall name :: name in labels <==>
                 name != "" && exists i :: 0 <= i < |last.detections| && last.detections[i].detection.labelText == name)
  {
    ObjectRunHolds(reports);
    HeldReport(ObjectRun(reports), LastReport(reports), OBJECT_FALLBACK);
    LabelsHeld(ObjectRun(reports), LastReport(reports));
  }

  lemma LabelsHeld(props: Values, report: Report)
    requires HoldsLabels(props, report)
    ensures var labels := StringsOf(Get(props, "labels"));
      && Distinct(labels)
      && Members(labels) ==
           (if !report.detected then {} else if report.detections == [] then {"motion"} else LabelSet(report.detections))
      && (!report.detected ==> labels == [])
      && (report.detected && report.detections == [] ==> labels == ["motion"])
      && (report.detected && report.detections != [] ==>
            forall name :: name in labels <==>
              name != "" && exists i :: 0 <= i < |report.detections| && report.detections[i].detection.labelText == name)
  {
    var list := NormalizeReported(report.detected, report.detections, OBJECT_FALLBACK);
    var xs :| props["labels"] == Names(xs);
    NamesRoundTrip(xs);
    DedupIsTheLabelSet(list);
    PermutedNames(xs, DedupLabels(list));
    NormalizedLabels(report);
    NoMembers(xs);
    DistinctSize(xs);
    assert forall name :: name in Members(xs) <==> name in xs;
    if report.detected && report.detections == [] {
      assert |xs| == 1 && xs[0] in Members(xs);
    }
  }

  /** Reporting the same objects again, in whatever order, is silent. */
  lemma SameObjectsAreSilent(props: Values, report: Report, again: Report)
    requires SameDetections(report, again)
    ensures WriteDelta(props + WriteDelta(props, ObjectState(report)), ObjectState(again)) == map[]
  {
    var xs := NormalizeReported(report.detected, report.detections, OBJECT_FALLBACK);
    var ys := NormalizeReported(again.detected, again.detections, OBJECT_FALLBACK);
    NormalizedReordered(report, again, OBJECT_FALLBACK);
    PermutedRecords(xs, ys);
    DedupIsTheLabelSet(xs);
    DedupIsTheLabelSet(ys);
    ReorderedMembers(xs, ys);
    assert LabelSet(xs) == LabelSet(ys);
    SameMembersSameNames(DedupLabels(xs), DedupLabels(ys));
    PermutedRewriteIsSilent(props, ObjectState(report), ObjectState(again));
  }

  lemma RepeatedObjectsAreSilent(reports: seq<Report>, again: Report)
    requires reports != [] && SameDetections(LastReport(reports), again)
    ensures WriteDelta(ObjectRun(reports), ObjectState(again)) == map[]
  {
    SameObjectsAreSilent(ObjectRun(reports[..|reports| - 1]), LastReport(reports), again);
  }

  /** The labels come in the order in which they first appear. */
  lemma {:induction false} DedupKeepsTheOrder(list: seq<Record>) returns (at: seq<nat>)
    ensures |at| == |DedupLabels(list)|
    ensures forall j | 0 <= j < |at| :: at[j] < |list| && list[at[j]].detection.labelText == DedupLabels(list)[j]
    ensures forall j, m | 0 <= j < |at| && 0 <= m < at[j] :: list[m].detection.labelText != DedupLabels(list)[j]
    ensures forall j, k | 0 <= j < k < |at| :: at[j] < at[k]
    decreases |list|
  {
    at := [];
    if list != [] {
      var init, last := list[..|list| - 1], list[|list| - 1];
      var name := last.detection.labelText;
      at := DedupKeepsTheOrder(init);
      assert forall m | 0 <= m < |init| :: init[m] == list[m];
      if name != "" && name !in DedupLabels(init) {
        DedupIsTheLabelSet(init);
        forall m | 0 <= m < |init| ensures list[m].detection.labelText != name {
          assert init[m] in init;
          assert name !in Members(DedupLabels(init));
        }
        at := at + [|init|];
      }
    }
  }

  // ---- the sensors ----

  class FaceSensor {
    const base: SensorObjects.BaseSensor

    ghost predicate Valid()
      reads this, base
    {
      base.Valid()
    }

    constructor (now: int)
      ensures Valid() && fresh(base)
      ensures base.properties == FaceRun([])
    {
      base := new SensorObjects.BaseSensor();
      new;
      var _, _ := base.WriteState(FACE_INITIAL, now);
    }

    method ReportDetections(detected: bool, detections: seq<Record>, now: int)
      requires Valid()
      modifies base
      ensures Valid()
      ensures base.properties == FaceReported(old(base.properties), Report(detected, detections))
      ensures WriteDelta(old(base.properties), FaceState(old(base.properties), Report(detected, detections))) == map[] ==>
              base.properties == old(base.properties) && base.sent == old(base.sent) && base.announced == old(base.announced)
    {
      var list := NormalizeReportedDetections(detected, detections, FACE_FALLBACK);
      var state: Values := map["detected" := Bool(detected), "detections" := Records(list)];
      var recognized: seq<string> := [];
      for i := 0 to |list|
        invariant recognized == Recognized(list[..i])
      {
        assert list[..i + 1][..i] == list[..i];
        if list[i].FaceRecord? && list[i].identity != "" {
          recognized := recognized + [list[i].identity];
        }
      }
      assert list[..|list|] == list;
      if !detected {
        state := state["identities" := Names([])];
      } else if recognized != [] {
        var identities := StringsOf(Get(base.properties, "identities"));
        state := state["identities" := Names(MergeSortedUnique(identities, recognized))];
      }
      var _, _ := base.WriteState(state, now);
    }
  }

  class ObjectSensor {
    const base: SensorObjects.BaseSensor

    ghost predicate Valid()
      reads this, base
    {
      base.Valid()
    }

    constructor (now: int)
      ensures Valid() && fresh(base)
      ensures base.properties == ObjectRun([])
    {
      base := new SensorObjects.BaseSensor();
      new;
      var _, _ := base.WriteState(OBJECT_INITIAL, now);
    }

    method ReportDetections(detected: bool, detections: seq<Record>, now: int)
      requires Valid()
      modifies base
      ensures Valid()
      ensures var delta := WriteDelta(old(base.properties), ObjectState(Report(detected, detections)));
        && base.properties == old(base.properties) + delta
        && (delta == map[] ==>
              base.properties == old(base.properties) && base.sent == old(base.sent) && base.announced == old(base.announced))
    {
      var list := NormalizeReportedDetections(detected, detections, OBJECT_FALLBACK);
      var labels := CollectLabels(list);
      var _, _ := base.WriteState(map["detected" := Bool(detected), "detections" := Records(list), "labels" := Names(labels)], now);
    }
  }
}
