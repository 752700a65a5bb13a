/**
 The two "latest" selections of `linode/helper/filter.go`: by creation time and by version.
 An entity is the index of an element of the list; its attribute may be missing.
 */
module FilterLatest {
  import opened Wrappers
  import opened Text

  // ---------------------------------------------------------------- latest created

  /** All the created times that are present parse. */
  ghost predicate AllCreatedParse(created: seq<Option<string>>, parse: string -> Option<int>) {
    forall i :: 0 <= i < |created| && created[i].Some? ==> parse(created[i].value).Some?
  }

  /** Entity i has the latest created time of all, and no earlier entity has the same one. */
  ghost predicate IsFirstLatest(created: seq<Option<string>>, parse: string -> Option<int>, i: int) {
    && 0 <= i < |created| && created[i].Some? && parse(created[i].value).Some?
    && (forall j :: 0 <= j < |created| && created[j].Some? && parse(created[j].value).Some? ==>
          parse(created[j].value).value <= parse(created[i].value).value)
    && (forall j :: 0 <= j < i && created[j].Some? && parse(created[j].value).Some? ==>
          parse(created[j].value).value < parse(created[i].value).value)
  }

  /**
   `GetLatestCreated`, for any time parser: no entity exactly when none has a created time or one does not
   parse; otherwise the first of those with the latest time, however early that time is.
   */
  method GetLatestCreated(created: seq<Option<string>>, parse: string -> Option<int>) returns (latest: Option<nat>)
    ensures latest.None?
            <==> || (exists i :: 0 <= i < |created| && created[i].Some? && parse(created[i].value).None?)
                 || forall i :: 0 <= i < |created| ==> created[i].None?
    ensures latest.Some? ==>
              && latest.value < |created| && created[latest.value].Some? && parse(created[latest.value].value).Some?
              && forall j :: 0 <= j < |created| && created[j].Some? ==>
                   && parse(created[j].value).Some?
                   && parse(created[j].value).value <= parse(created[latest.value].value).value
                   && (j < latest.value ==> parse(created[j].value).value < parse(created[latest.value].value).value)
  {
    var latestCreated := 0;
    latest := None;
    for i := 0 to |created|
      invariant AllCreatedParse(created[..i], parse)
      invariant latest.None? ==> forall j :: 0 <= j < i ==> created[j].None?
      invariant latest.Some? ==>
                  latest.value < i && IsFirstLatest(created[..i], parse, latest.value)
                  && latestCreated == parse(created[latest.value].value).value
    {
      assert created[..i + 1] == created[..i] + [created[i]];
      if created[i].None? {
        continue;
      }
      var createdTime := parse(created[i].value);
      if createdTime.None? {
        return None;
      }
      if latest.Some? && !(createdTime.value > latestCreated) {
        continue;
      }
      latestCreated := createdTime.value;
      latest := Some(i);
    }
    assert created[..|created|] == created;
  }

  // ---------------------------------------------------------------- latest version

  /** Lexicographic order of version vectors; a proper prefix is smaller. */
  predicate Before(x: seq<GoInt>, y: seq<GoInt>) {
    y != [] && (x == [] || x[0] < y[0] || (x[0] == y[0] && Before(x[1..], y[1..])))
  }

  /** The vectors agree before position k, and x has the smaller segment there. */
  ghost predicate FirstDifference(x: seq<GoInt>, y: seq<GoInt>, k: nat) {
    k < |x| && k < |y| && x[..k] == y[..k] && x[k] < y[k]
  }

  lemma DifferenceShift(x: seq<GoInt>, y: seq<GoInt>, k: nat)
    requires x != [] && y != [] && x[0] == y[0]
    ensures FirstDifference(x[1..], y[1..], k) <==> FirstDifference(x, y, k + 1)
  {
    if k < |x[1..]| && k < |y[1..]| {
      assert x[..k + 1] == [x[0]] + x[1..][..k] && y[..k + 1] == [y[0]] + y[1..][..k];
      assert x[1..][..k] == x[..k + 1][1..] && y[1..][..k] == y[..k + 1][1..];
    }
  }

  /** A version is before another when it is a proper prefix of it or smaller at the first difference. */
  lemma {:induction false} BeforeIff(x: seq<GoInt>, y: seq<GoInt>)
    ensures Before(x, y) <==> x < y || exists k :: FirstDifference(x, y, k)
  {
    if x != [] && y != [] {
      assert x[0] < y[0] ==> FirstDifference(x, y, 0);
      assert x[0] != y[0] ==> forall k: nat :: FirstDifference(x, y, k) ==> k == 0 by {
        forall k: nat | k > 0 && FirstDifference(x, y, k) ensures x[0] == y[0] {
          assert x[..k][0] == y[..k][0];
        }
      }
      if x[0] == y[0] {
        BeforeIff(x[1..], y[1..]);
        assert x == [x[0]] + x[1..] && y == [y[0]] + y[1..];
        if k: nat :| FirstDifference(x[1..], y[1..], k) {
          DifferenceShift(x, y, k);
        }
        if k: nat :| FirstDifference(x, y, k) {
          DifferenceShift(x, y, k - 1);
        }
      }
    }
  }

  lemma {:induction false} BeforeTransitive(x: seq<GoInt>, y: seq<GoInt>, z: seq<GoInt>)
    requires !Before(y, x) && Before(y, z)
    ensures Before(x, z)
  {
    if x != [] && y != [] && x[0] == y[0] == z[0] {
      BeforeTransitive(x[1..], y[1..], z[1..]);
    }
  }

  lemma {:induction false} BeforeIrreflexive(x: seq<GoInt>)
    ensures !Before(x, x)
  {
    if x != [] {
      BeforeIrreflexive(x[1..]);
    }
  }

  /** Not being after either of two ordered vectors. */
  lemma {:induction false} AtMostTransitive(x: seq<GoInt>, y: seq<GoInt>, z: seq<GoInt>)
    requires !Before(y, x) && !Before(z, y)
    ensures !Before(z, x)
  {
    if x != [] && z != [] && y != [] && x[0] == y[0] == z[0] {
      AtMostTransitive(x[1..], y[1..], z[1..]);
    }
  }

  /** The `.`-separated integer segments of a version, if they all parse. */
  function ParseSegments(parts: seq<string>): Option<seq<GoInt>> {
    if parts == [] then Some([])
    else
      var first, rest := Atoi(parts[0]), ParseSegments(parts[1..]);
      if first.None? || rest.None? then None else Some([first.value] + rest.value)
  }

  /** The loop that parses the segments; stops at the first that does not parse. */
  method ParseParts(parts: seq<string>) returns (r: Option<seq<GoInt>>)
    ensures r == ParseSegments(parts)
  {
    var segments: seq<GoInt> := [];
    for i := 0 to |parts|
      invariant var rest := ParseSegments(parts[i..]);
                if rest.None? then ParseSegments(parts).None?
                else ParseSegments(parts).Some? && ParseSegments(parts).value == segments + rest.value
    {
      assert parts[i..][1..] == parts[i + 1..];
      var segment := Atoi(parts[i]);
      if segment.None? {
        return None;
      }
      segments := segments + [segment.value];
    }
    assert parts[|parts|..] == [] && segments + [] == segments;
    return Some(segments);
  }

  function ParseVersion(version: string): Option<seq<GoInt>> {
    ParseSegments(Split(version, '.'))
  }

  lemma {:induction false} ParseSegmentsLength(parts: seq<string>)
    ensures ParseSegments(parts).Some? ==> |ParseSegments(parts).value| == |parts|
  {
    if parts != [] {
      ParseSegmentsLength(parts[1..]);
    }
  }

  /** Go's three outcomes: an entity or nil, an error, or an index out of range. */
  datatype Latest = Entity(index: Option<nat>) | ParseError | Panics

  function Zeros(n: nat): seq<GoInt> {
    seq(n, _ => 0)
  }

  /** The comparison loop: whether `version` exceeds `latest`; None is an index out of range. */
  method Exceeds(version: seq<GoInt>, latest: seq<GoInt>) returns (r: Option<bool>)
    ensures r.None? <==> latest < version
    ensures r.Some? ==> (r.value <==> Before(latest, version))
    ensures r.Some? ==> (r.value <==> exists k :: FirstDifference(latest, version, k))
  {
    BeforeIff(latest, version);
    for i := 0 to |version|
      invariant i <= |latest| && latest[..i] == version[..i]
      invariant Before(latest, version) == Before(latest[i..], version[i..])
    {
      if i >= |latest| {
        return None;
      }
      if version[i] < latest[i] {
        return Some(false);
      }
      if version[i] > latest[i] {
        return Some(true);
      }
      assert latest[i..][1..] == latest[i + 1..] && version[i..][1..] == version[i + 1..];
    }
    return Some(false);
  }

  /** The versions that are present and parse, in list order, each with its position. */
  function Parsed(versions: seq<Option<string>>): seq<(nat, seq<GoInt>)> {
    if versions == [] then []
    else
      var front := Parsed(versions[..|versions| - 1]);
      var last := versions[|versions| - 1];
      if last.None? || ParseVersion(last.value).None? then front
      else front + [(|versions| - 1, ParseVersion(last.value).value)]
  }

  /** The initial running maximum: as many zeros as the first version has segments. */
  function Start(vs: seq<(nat, seq<GoInt>)>): seq<GoInt> {
    if vs == [] then [] else Zeros(|vs[0].1|)
  }

  /** The largest of the starting zeros and the first k versions. */
  function RunningMax(vs: seq<(nat, seq<GoInt>)>, k: nat): seq<GoInt>
    requires k <= |vs|
  {
    if k == 0 then Start(vs)
    else
      var before := RunningMax(vs, k - 1);
      if Before(before, vs[k - 1].1) then vs[k - 1].1 else before
  }

  /** The running maximum is an upper bound, attained by the start or by one of the versions. */
  lemma {:induction false} RunningMaxIsMaximum(vs: seq<(nat, seq<GoInt>)>, k: nat)
    requires k <= |vs|
    ensures !Before(RunningMax(vs, k), Start(vs))
    ensures forall j :: 0 <= j < k ==> !Before(RunningMax(vs, k), vs[j].1)
    ensures RunningMax(vs, k) == Start(vs) || exists j :: 0 <= j < k && vs[j].1 == RunningMax(vs, k)
  {
    BeforeIrreflexive(Start(vs));
    if k > 0 {
      RunningMaxIsMaximum(vs, k - 1);
      var before, now, last := RunningMax(vs, k - 1), RunningMax(vs, k), vs[k - 1].1;
      BeforeIrreflexive(last);
      if Before(before, last) {
        forall x | !Before(before, x) ensures !Before(last, x) {
          if Before(last, x) {
            BeforeIrreflexive(x);
            BeforeTransitive(before, last, x) by { NotAfter(before, last); }
          }
        }
        assert vs[k - 1].1 == now;
      } else {
        if now != Start(vs) {
          var j :| 0 <= j < k - 1 && vs[j].1 == now;
        }
      }
    }
  }

  lemma {:induction false} NotAfter(x: seq<GoInt>, y: seq<GoInt>)
    requires Before(x, y)
    ensures !Before(y, x)
  {
    if x != [] && x[0] == y[0] {
      NotAfter(x[1..], y[1..]);
    }
  }

  lemma {:induction false} RunningMaxOfPrefix(vs: seq<(nat, seq<GoInt>)>, x: (nat, seq<GoInt>), k: nat)
    requires vs != [] && k <= |vs|
    ensures RunningMax(vs + [x], k) == RunningMax(vs, k)
  {
    if k > 0 {
      RunningMaxOfPrefix(vs, x, k - 1);
    }
  }

  /** Version k is missing or parses. */
  predicate ParsesAt(versions: seq<Option<string>>, k: nat)
    requires k < |versions|
  {
    versions[k].Some? ==> ParseVersion(versions[k].value).Some?
  }

  /** The maximum of the versions before k, or the starting zeros, is a proper prefix of version k. */
  predicate OutgrowsAt(versions: seq<Option<string>>, k: nat)
    requires k < |versions|
  {
    var vs := Parsed(versions[..k]);
    && versions[k].Some? && ParsesAt(versions, k) && vs != []
    && RunningMax(vs, |vs|) < ParseVersion(versions[k].value).value
  }

  predicate CleanUpTo(versions: seq<Option<string>>, k: nat)
    requires k <= |versions|
  {
    forall j :: 0 <= j < k ==> ParsesAt(versions, j) && !OutgrowsAt(versions, j)
  }

  /** Entity i has a maximal version above the starting zeros, and every earlier version is smaller. */
  ghost predicate IsFirstMaximum(versions: seq<Option<string>>, i: nat) {
    && i < |versions| && versions[i].Some? && ParseVersion(versions[i].value).Some?
    && var latest := ParseVersion(versions[i].value).value;
       && Before(Start(Parsed(versions)), latest)
       && forall j :: 0 <= j < |versions| && versions[j].Some? && ParseVersion(versions[j].value).Some? ==>
            && !Before(latest, ParseVersion(versions[j].value).value)
            && (j < i ==> Before(ParseVersion(versions[j].value).value, latest))
  }

  /** Where a version that parses stands among the parsed ones. */
  lemma {:induction false} ParsedAt(versions: seq<Option<string>>, j: nat) returns (p: nat)
    requires j < |versions| && versions[j].Some? && ParseVersion(versions[j].value).Some?
    ensures p < |Parsed(versions)| && Parsed(versions)[p] == (j, ParseVersion(versions[j].value).value)
  {
    var front := versions[..|versions| - 1];
    if j < |front| {
      p := ParsedAt(front, j);
    } else {
      p := |Parsed(front)|;
    }
  }

  /** Which version stands at a place among the parsed ones. */
  lemma {:induction false} ParsedFrom(versions: seq<Option<string>>, p: nat)
    requires p < |Parsed(versions)|
    ensures var j := Parsed(versions)[p].0;
            && j < |versions| && versions[j].Some?
            && ParseVersion(versions[j].value) == Some(Parsed(versions)[p].1)
  {
    var front := versions[..|versions| - 1];
    if p < |Parsed(front)| {
      ParsedFrom(front, p);
    }
  }

  lemma {:induction false} ParsedIncreasing(versions: seq<Option<string>>, p: nat, q: nat)
    requires p < q < |Parsed(versions)|
    ensures Parsed(versions)[p].0 < Parsed(versions)[q].0
  {
    var front := versions[..|versions| - 1];
    if q < |Parsed(front)| {
      ParsedIncreasing(front, p, q);
    } else {
      ParsedFrom(front, p);
    }
  }

  /** No version that parses exceeds the starting zeros. */
  ghost predicate NoneAboveZeros(versions: seq<Option<string>>) {
    forall j :: 0 <= j < |versions| && versions[j].Some? && ParseVersion(versions[j].value).Some? ==>
      !Before(Start(Parsed(versions)), ParseVersion(versions[j].value).value)
  }

  lemma TrackedNone(versions: seq<Option<string>>, latest: seq<GoInt>)
    requires Tracks(Parsed(versions), latest, None)
    ensures NoneAboveZeros(versions)
  {
    RunningMaxIsMaximum(Parsed(versions), |Parsed(versions)|);
    forall j | 0 <= j < |versions| && versions[j].Some? && ParseVersion(versions[j].value).Some?
      ensures !Before(Start(Parsed(versions)), ParseVersion(versions[j].value).value)
    {
      var q := ParsedAt(versions, j);
    }
  }

  /** What the loop tracks at the end is the first maximum. */
  lemma TrackedIsFirstMaximum(versions: seq<Option<string>>, latest: seq<GoInt>, i: nat)
    requires Tracks(Parsed(versions), latest, Some(i))
    ensures IsFirstMaximum(versions, i)
  {
    var vs := Parsed(versions);
    RunningMaxIsMaximum(vs, |vs|);
    var p :| 0 <= p < |vs| && vs[p] == (i, latest) && forall q :: 0 <= q < p ==> Before(vs[q].1, latest);
    ParsedFrom(versions, p);
    forall j | 0 <= j < |versions| && versions[j].Some? && ParseVersion(versions[j].value).Some?
      ensures !Before(latest, ParseVersion(versions[j].value).value)
      ensures j < i ==> Before(ParseVersion(versions[j].value).value, latest)
    {
      var q := ParsedAt(versions, j);
      if q > p {
        ParsedIncreasing(versions, p, q);
      }
    }
  }

  /** A version exceeds n zeros when its first non-zero segment among n is positive, or it is longer with zeros. */
  lemma AboveZerosIff(n: nat, v: seq<GoInt>)
    ensures Before(Zeros(n), v)
            <==> || (|v| > n && forall i :: 0 <= i < n ==> v[i] == 0)
                 || exists k: nat :: k < n && k < |v| && v[k] > 0 && forall i :: 0 <= i < k ==> v[i] == 0
  {
    var zeros := Zeros(n);
    BeforeIff(zeros, v);
    if k: nat :| k < n && k < |v| && v[k] > 0 && forall i :: 0 <= i < k ==> v[i] == 0 {
      assert FirstDifference(zeros, v, k);
    }
    if |v| > n && forall i :: 0 <= i < n ==> v[i] == 0 {
      assert zeros < v;
    }
    if k: nat :| FirstDifference(zeros, v, k) {
      assert forall i :: 0 <= i < k ==> v[i] == v[..k][i] == zeros[..k][i] == 0;
    }
  }

  /** What the loop knows: the running maximum, and which version first reached it. */
  ghost predicate Tracks(vs: seq<(nat, seq<GoInt>)>, latest: seq<GoInt>, entity: Option<nat>) {
    && latest == RunningMax(vs, |vs|)
    && (entity.None? ==> latest == Start(vs))
    && (entity.Some? ==>
          Before(Start(vs), latest) &&
          exists p :: 0 <= p < |vs| && vs[p] == (entity.value, latest)
            && forall q :: 0 <= q < p ==> Before(vs[q].1, latest))
  }

  lemma TracksOneMore(vs: seq<(nat, seq<GoInt>)>, latest: seq<GoInt>, entity: Option<nat>, x: (nat, seq<GoInt>))
    requires Tracks(vs, latest, entity) && vs != []
    ensures Before(latest, x.1) ==> Tracks(vs + [x], x.1, Some(x.0))
    ensures !Before(latest, x.1) ==> Tracks(vs + [x], latest, entity)
  {
    var more := vs + [x];
    RunningMaxOfPrefix(vs, x, |vs|);
    assert RunningMax(more, |more|) == if Before(latest, x.1) then x.1 else latest;
    RunningMaxIsMaximum(vs, |vs|);
    if Before(latest, x.1) {
      BeforeTransitive(Start(vs), latest, x.1);
      assert more[|vs|] == x;
      forall q | 0 <= q < |vs| ensures Before(more[q].1, x.1) {
        BeforeTransitive(vs[q].1, latest, x.1);
      }
    } else if entity.Some? {
      var p :| 0 <= p < |vs| && vs[p] == (entity.value, latest) && forall q :: 0 <= q < p ==> Before(vs[q].1, latest);
      assert more[p] == (entity.value, latest);
    }
  }

  lemma TracksFirst(x: (nat, seq<GoInt>))
    ensures Before(Zeros(|x.1|), x.1) ==> Tracks([x], x.1, Some(x.0))
    ensures !Before(Zeros(|x.1|), x.1) ==> Tracks([x], Zeros(|x.1|), None)
  {
  }

  /**
   `GetLatestVersion`, on any list. It panics exactly when some version extends the maximum of the ones
   before it by further segments, and fails exactly when a version does not parse, whichever comes first.
   Otherwise the result is the first lexicographic maximum, or nil when no version exceeds as many zeros as
   the first version has segments.
   */
  method GetLatestVersion(versions: seq<Option<string>>) returns (r: Latest)
    ensures r.Panics? <==> exists k :: 0 <= k < |versions| && CleanUpTo(versions, k) && OutgrowsAt(versions, k)
    ensures r.ParseError? <==> exists k :: 0 <= k < |versions| && CleanUpTo(versions, k) && !ParsesAt(versions, k)
    ensures r.Entity? && r.index.Some? ==> IsFirstMaximum(versions, r.index.value)
    ensures r.Entity? ==> forall j :: 0 <= j < |versions| ==> ParsesAt(versions, j)
    ensures r == Entity(None) ==> NoneAboveZeros(versions)
  {
    var latestVersion: seq<GoInt> := [];
    var latestEntity: Option<nat> := None;
    for i := 0 to |versions|
      invariant CleanUpTo(versions, i)
      invariant latestVersion == [] <==> Parsed(versions[..i]) == []
      invariant Tracks(Parsed(versions[..i]), latestVersion, latestEntity)
    {
      ghost var vs := Parsed(versions[..i]);
      assert versions[..i + 1][..i] == versions[..i];
      if versions[i].None? {
        continue;
      }
      var version := ParseParts(Split(versions[i].value, '.'));
      if version.None? {
        assert !ParsesAt(versions, i);
        return ParseError;
      }
      ParseSegmentsLength(Split(versions[i].value, '.'));
      assert Parsed(versions[..i + 1]) == vs + [(i, version.value)];
      if latestVersion == [] {
        latestVersion := Zeros(|version.value|);
      }
      var exceeds := Exceeds(version.value, latestVersion);
      if exceeds.None? {
        assert OutgrowsAt(versions, i);
        return Panics;
      }
      if vs == [] {
        TracksFirst((i, version.value));
      } else {
        TracksOneMore(vs, latestVersion, latestEntity, (i, version.value));
      }
      if exceeds.value {
        latestEntity := Some(i);
        latestVersion := version.value;
      }
    }
    assert versions[..|versions|] == versions;
    if latestEntity.Some? {
      TrackedIsFirstMaximum(versions, latestVersion, latestEntity.value);
    } else {
      TrackedNone(versions, latestVersion);
    }
    return Entity(latestEntity);
  }

  /** Every version has the same number of segments. */
  ghost predicate UniformLength(vs: seq<(nat, seq<GoInt>)>, n: nat) {
    forall j :: 0 <= j < |vs| ==> |vs[j].1| == n
  }

  lemma {:induction false} UniformMaxLength(vs: seq<(nat, seq<GoInt>)>, n: nat, k: nat)
    requires vs != [] && UniformLength(vs, n) && k <= |vs|
    ensures |RunningMax(vs, k)| == n
  {
    if k > 0 {
      UniformMaxLength(vs, n, k - 1);
    }
  }

  lemma {:induction false} ParsedPrefix(versions: seq<Option<string>>, k: nat)
    requires k <= |versions|
    ensures Parsed(versions[..k]) <= Parsed(versions)
  {
    if k < |versions| {
      ParsedPrefix(versions[..|versions| - 1], k);
      assert versions[..|versions| - 1][..k] == versions[..k];
    } else {
      assert versions[..k] == versions;
    }
  }

  /** With one segment count for all versions there is no index out of range. */
  lemma UniformVersionsNeverPanic(versions: seq<Option<string>>, n: nat, k: nat)
    requires UniformLength(Parsed(versions), n) && k < |versions|
    ensures !OutgrowsAt(versions, k)
  {
    ParsedPrefix(versions, k);
    ParsedPrefix(versions, k + 1);
    assert versions[..k + 1][..k] == versions[..k];
    var vs, more := Parsed(versions[..k]), Parsed(versions[..k + 1]);
    assert forall j :: 0 <= j < |vs| ==> vs[j] == Parsed(versions)[j];
    if vs != [] && versions[k].Some? && ParsesAt(versions, k) {
      UniformMaxLength(vs, n, |vs|);
      assert more[|vs|] == Parsed(versions)[|vs|];
    }
  }

  /** Of two versions, the second is out of range exactly when it extends the first or the zeros it beats. */
  lemma SecondOfTwoOutgrowsIff(first: string, second: string, v: seq<GoInt>, w: seq<GoInt>)
    requires ParseVersion(first) == Some(v) && ParseVersion(second) == Some(w)
    ensures OutgrowsAt([Some(first), Some(second)], 1)
            <==> (if Before(Zeros(|v|), v) then v else Zeros(|v|)) < w
  {
    var versions := [Some(first), Some(second)];
    var front := versions[..1];
    assert front == [Some(first)] && front[..0] == [] && Parsed(front[..0]) == [];
    assert Parsed(front) == Parsed(front[..|front| - 1]) + [(0, v)];
    var vs := Parsed(front);
    assert vs == [(0, v)] && RunningMax(vs, 0) == Zeros(|v|);
    assert RunningMax(vs, 1) == if Before(Zeros(|v|), v) then v else Zeros(|v|);
  }

  /** "8" followed by "8.0": nothing fails on the first version, and the second is out of range. */
  lemma LongerVersionPanics()
    ensures CleanUpTo([Some("8"), Some("8.0")], 1) && OutgrowsAt([Some("8"), Some("8.0")], 1)
  {
    var versions := [Some("8"), Some("8.0")];
    assert ParsesAt(versions, 0) && Parsed(versions[..0]) == [];
  }
}
