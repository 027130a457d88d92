/**
  Acquisition progress of rust/src/package_progress.rs: the packages of one
  operation, the aggregate snapshot with its 64-bit arithmetic, and the loop
  that calls the observer. Percentages are doubles.
*/
module PackageProgress {
  import opened Bytes
  import opened PackageDefinition
  import opened Float64
  import opened Percentage

  datatype Phase = Resolving | Downloading | Loading | Ready

  datatype Download = Download(received: U64, total: Option<U64>, percent: Option<real>)

  datatype Package = Package(id: Name, phase: Phase, cached: bool, download: Download)

  datatype Snapshot = Snapshot(phase: Phase, download: Download, packages: seq<Package>)

  /** `resolving` counts the roots still to be resolved; packages are kept by hash, local ones by identity. */
  datatype State = State(resolving: nat, packages: seq<Entry<Package>>)

  /** `DownloadProgress::new`: a total below what was received is no total. */
  function NewDownload(received: U64, total: Option<U64>): Download {
    var known := if total.Some? && total.value >= received then total else None;
    Download(received, known, if known.Some? then Some(Percent(received, known.value)) else None)
  }

  /** A download says what was received, and a total only if that is not less; then it has a percentage. */
  ghost predicate Says(d: Download, received: U64, total: Option<U64>) {
    && d.received == received
    && (d.total.Some? <==> d.percent.Some?)
    && (if total.None? || received > total.value then d.total.None? else d.total == total && d.percent == Some(Percent(received, total.value)))
  }

  lemma DownloadSays(received: U64, total: Option<U64>)
    ensures Says(NewDownload(received, total), received, total)
  {
  }

  // ----- the map of packages -----

  lemma {:induction false} LessTransitive(a: Name, b: Name, c: Name)
    requires Less(a, b) && Less(b, c)
    ensures Less(a, c)
  {
    if a != [] && a[0] == b[0] == c[0] { LessTransitive(a[1..], b[1..], c[1..]); }
  }

  lemma {:induction false} LessTotal(a: Name, b: Name)
    ensures a == b || Less(a, b) || Less(b, a)
  {
    if a != [] && b != [] && a[0] == b[0] {
      LessTotal(a[1..], b[1..]);
      assert a == [a[0]] + a[1..] && b == [b[0]] + b[1..];
    }
  }

  /** `entry(key).or_insert(value)` */
  function OrInsert<V>(t: seq<Entry<V>>, key: Name, value: V): seq<Entry<V>> {
    if t == [] || Less(key, t[0].key) then [Entry(key, value)] + t
    else if key == t[0].key then t
    else [t[0]] + OrInsert(t[1..], key, value)
  }

  /** The value at a key that is there. */
  function Modify<V>(t: seq<Entry<V>>, key: Name, value: V): seq<Entry<V>> {
    if t == [] then []
    else if t[0].key == key then [Entry(key, value)] + t[1..]
    else [t[0]] + Modify(t[1..], key, value)
  }

  ghost predicate Above<V>(t: seq<Entry<V>>, key: Name) {
    forall i | 0 <= i < |t| :: Less(key, t[i].key)
  }

  lemma ConsAscends<V>(e: Entry<V>, t: seq<Entry<V>>)
    requires Ascending(t) && Above(t, e.key)
    ensures Ascending([e] + t)
  {
  }

  lemma TailAscends<V>(t: seq<Entry<V>>)
    requires Ascending(t) && t != []
    ensures Ascending(t[1..]) && Above(t[1..], t[0].key)
  {
  }

  lemma {:induction false} OrInsertHolds<V>(t: seq<Entry<V>>, key: Name, value: V)
    ensures forall e :: e in OrInsert(t, key, value) ==> e in t || e == Entry(key, value)
    ensures forall e :: e in t ==> e in OrInsert(t, key, value)
    ensures Has(OrInsert(t, key, value), key)
  {
    if t == [] || Less(key, t[0].key) {
      assert OrInsert(t, key, value)[0].key == key;
    } else if key == t[0].key {
      assert t[0].key == key;
    } else {
      OrInsertHolds(t[1..], key, value);
      var rest := OrInsert(t[1..], key, value);
      var k :| 0 <= k < |rest| && rest[k].key == key;
      assert ([t[0]] + rest)[k + 1].key == key;
      assert t == [t[0]] + t[1..];
    }
  }

  lemma AllAbove<V>(t: seq<Entry<V>>, key: Name)
    requires Ascending(t) && (t == [] || Less(key, t[0].key))
    ensures Above(t, key)
  {
    forall i | 0 <= i < |t| ensures Less(key, t[i].key) {
      if i > 0 { LessTransitive(key, t[0].key, t[i].key); }
    }
  }

  lemma {:induction false} OrInsertAscends<V>(t: seq<Entry<V>>, key: Name, value: V)
    requires Ascending(t)
    ensures Ascending(OrInsert(t, key, value))
    ensures forall low | Above(t, low) && Less(low, key) :: Above(OrInsert(t, key, value), low)
  {
    if t == [] || Less(key, t[0].key) {
      AllAbove(t, key);
      ConsAscends(Entry(key, value), t);
    } else if key != t[0].key {
      TailAscends(t);
      LessTotal(key, t[0].key);
      OrInsertAscends(t[1..], key, value);
      ConsAscends(t[0], OrInsert(t[1..], key, value));
    }
  }

  lemma OrInsertKeeps<V>(t: seq<Entry<V>>, key: Name, value: V)
    requires Ascending(t)
    ensures Ascending(OrInsert(t, key, value)) && Has(OrInsert(t, key, value), key)
    ensures forall e :: e in OrInsert(t, key, value) ==> e in t || e == Entry(key, value)
    ensures forall e :: e in t ==> e in OrInsert(t, key, value)
  {
    OrInsertAscends(t, key, value);
    OrInsertHolds(t, key, value);
  }

  // ----- the aggregate -----

  function Received(t: seq<Entry<Package>>): nat {
    if t == [] then 0 else Received(t[..|t| - 1]) + t[|t| - 1].value.download.received
  }

  predicate AllKnown(t: seq<Entry<Package>>) {
    forall k | 0 <= k < |t| :: t[k].value.download.total.Some?
  }

  function Total(t: seq<Entry<Package>>): nat
    requires AllKnown(t)
  {
    if t == [] then 0 else Total(t[..|t| - 1]) + t[|t| - 1].value.download.total.value
  }

  /** Every download was made by `DownloadProgress::new`. */
  predicate Made(d: Download) {
    d == NewDownload(d.received, d.total)
  }

  ghost predicate WellFormed(s: State) {
    && Ascending(s.packages)
    && forall k | 0 <= k < |s.packages| :: Made(s.packages[k].value.download)
  }

  function SaturatedSum(t: seq<Entry<Package>>): U64 {
    Min(Received(t), U64_MAX)
  }

  function CheckedSum(t: seq<Entry<Package>>): Option<U64> {
    if AllKnown(t) && Total(t) <= U64_MAX then Some(Total(t)) else None
  }

  lemma SumsOneMore(t: seq<Entry<Package>>, i: nat)
    requires i < |t|
    ensures Received(t[..i + 1]) == Received(t[..i]) + t[i].value.download.received
    ensures AllKnown(t[..i + 1]) <==> AllKnown(t[..i]) && t[i].value.download.total.Some?
    ensures AllKnown(t[..i + 1]) ==> Total(t[..i + 1]) == Total(t[..i]) + t[i].value.download.total.value
  {
    assert t[..i + 1][..i] == t[..i] && t[..i + 1][i] == t[i];
    assert forall k | 0 <= k < i :: t[..i + 1][k] == t[..i][k];
  }

  function Aggregate(s: State): Download {
    NewDownload(SaturatedSum(s.packages), if s.resolving == 0 then CheckedSum(s.packages) else None)
  }

  function Listed(t: seq<Entry<Package>>, ready: bool): seq<Package> {
    seq(|t|, k requires 0 <= k < |t| => if ready then t[k].value.(phase := Ready) else t[k].value)
  }

  function SnapshotPhase(s: State, ready: bool): Phase {
    if ready then Ready
    else if s.resolving > 0 then Resolving
    else if exists k :: 0 <= k < |s.packages| && (s.packages[k].value.phase.Downloading? || s.packages[k].value.phase.Resolving?)
    then Downloading
    else Loading
  }

  function Take(s: State, ready: bool): Snapshot {
    Snapshot(SnapshotPhase(s, ready), Aggregate(s), Listed(s.packages, ready))
  }

  /** A package that is not being loaded yet. */
  predicate IsEarly(p: Package) {
    p.phase == Resolving || p.phase == Downloading
  }

  /**
    What a snapshot says as a whole of what it lists. Ready is said of all or of
    none; while roots are unresolved the phase is Resolving; else it is
    Downloading or Loading as some package is early or none is.
  */
  ghost predicate Summarizes(n: Snapshot, unresolved: nat, ready: bool) {
    if ready then n.phase == Ready && forall k | 0 <= k < |n.packages| :: n.packages[k].phase == Ready
    else if unresolved > 0 then n.phase == Resolving
    else
      && (n.phase == Downloading <==> exists k :: 0 <= k < |n.packages| && IsEarly(n.packages[k]))
      && (n.phase == Loading <==> forall k | 0 <= k < |n.packages| :: n.packages[k].phase == Loading || n.packages[k].phase == Ready)
  }

  /** Each package is listed as it is, in order, but for its phase when the operation is ready. */
  ghost predicate Lists(n: Snapshot, packages: seq<Entry<Package>>, ready: bool) {
    && |n.packages| == |packages|
    && forall k | 0 <= k < |packages| ::
         && n.packages[k].id == packages[k].value.id && n.packages[k].cached == packages[k].value.cached
         && n.packages[k].download == packages[k].value.download
         && (!ready ==> n.packages[k].phase == packages[k].value.phase)
  }

  lemma SnapshotsSummarize(s: State, ready: bool)
    ensures Summarizes(Take(s, ready), s.resolving, ready) && Lists(Take(s, ready), s.packages, ready)
  {
    var n := Take(s, ready);
    if !ready {
      forall k | 0 <= k < |s.packages| ensures n.packages[k] == s.packages[k].value {
      }
      if k :| 0 <= k < |s.packages| && IsEarly(s.packages[k].value) { assert IsEarly(n.packages[k]); }
      if k :| 0 <= k < |n.packages| && IsEarly(n.packages[k]) { assert IsEarly(s.packages[k].value); }
    }
  }

  /** The order of the phases. */
  function Rank(phase: Phase): nat {
    match phase
    case Resolving => 0
    case Downloading => 1
    case Loading => 2
    case Ready => 3
  }

  /** No package is added and none goes back; nor are roots added. */
  ghost predicate MovesOn(s: State, t: State) {
    && t.resolving <= s.resolving && |t.packages| == |s.packages|
    && forall k | 0 <= k < |s.packages| :: Rank(s.packages[k].value.phase) <= Rank(t.packages[k].value.phase)
  }

  lemma AggregateMovesOn(s: State, t: State)
    requires MovesOn(s, t)
    ensures Rank(Take(s, false).phase) <= Rank(Take(t, false).phase)
  {
    SnapshotsSummarize(s, false);
    SnapshotsSummarize(t, false);
    var now := Take(t, false);
    if s.resolving == 0 && now.phase == Downloading {
      var k :| 0 <= k < |now.packages| && IsEarly(now.packages[k]);
      assert IsEarly(Take(s, false).packages[k]);
    }
  }

  /** Over a run in which the packages only move on, the aggregate phase never goes back. */
  lemma {:induction false} PhaseNeverGoesBack(states: seq<State>, i: nat, j: nat)
    requires i <= j < |states|
    requires forall k | 0 <= k < |states| - 1 :: MovesOn(states[k], states[k + 1])
    ensures Rank(Take(states[i], false).phase) <= Rank(Take(states[j], false).phase)
    decreases j
  {
    if i < j {
      PhaseNeverGoesBack(states, i, j - 1);
      assert MovesOn(states[j - 1], states[j - 1 + 1]);
      AggregateMovesOn(states[j - 1], states[j]);
    }
  }

  /** A package that is added can take it back. */
  lemma AnAdditionCanGoBack(s: State, key: Name, id: Name)
    requires s == State(0, [])
    ensures Take(s, false).phase == Loading && Take(Register(s, key, id), false).phase == Downloading
  {
    SnapshotsSummarize(s, false);
    var t := Register(s, key, id);
    SnapshotsSummarize(t, false);
    assert IsEarly(Take(t, false).packages[0]);
  }

  lemma {:induction false} ReceivedWithinTotal(t: seq<Entry<Package>>)
    requires AllKnown(t) && forall k | 0 <= k < |t| :: Made(t[k].value.download)
    ensures Received(t) <= Total(t)
  {
    if t != [] {
      ReceivedWithinTotal(t[..|t| - 1]);
      assert Made(t[|t| - 1].value.download);
    }
  }

  /**
    The total is known exactly when nothing is being resolved, every package's
    total is known and their sum fits in 64 bits. Then it is that sum, what was
    received is exact and no more than it, and the percentage is theirs: from 0
    to 100 for a total up to `EXACT`, and never above the
    double next to 100. Otherwise there is no percentage.
  */
  lemma AggregateIsSound(s: State)
    requires WellFormed(s)
    ensures var d := Aggregate(s);
      && (d.total.Some? <==> s.resolving == 0 && AllKnown(s.packages) && Total(s.packages) <= U64_MAX)
      && (d.percent.Some? <==> d.total.Some?)
      && (d.total.Some? ==>
            && d.total.value == Total(s.packages)
            && d.received == Received(s.packages) <= d.total.value
            && d.percent.value == Percent(Received(s.packages), Total(s.packages))
            && 0.0 <= d.percent.value <= ABOVE_HUNDRED
            && (d.total.value <= EXACT ==>
                  && d.percent.value <= 100.0
                  && (d.percent.value == 100.0 <==> d.received == d.total.value)))
      && d.received == (if Received(s.packages) <= U64_MAX then Received(s.packages) else U64_MAX)
  {
    if AllKnown(s.packages) {
      ReceivedWithinTotal(s.packages);
      if Total(s.packages) <= U64_MAX {
        PercentIsBounded(Received(s.packages), Total(s.packages));
        if Total(s.packages) <= EXACT { PercentIsExact(Received(s.packages), Total(s.packages)); }
      }
    }
  }

  /** With nothing to download everything has come. */
  lemma NothingHasCome()
    ensures Aggregate(State(0, [])) == Download(0, Some(0), Some(100.0))
  {
  }

  // ----- the shared progress -----

  function Register(s: State, key: Name, id: Name): State {
    s.(packages := OrInsert(s.packages, key, Package(id, Resolving, false, NewDownload(0, None))))
  }

  lemma RegisterKeeps(s: State, key: Name, id: Name)
    requires WellFormed(s)
    ensures WellFormed(Register(s, key, id)) && Has(Register(s, key, id).packages, key)
  {
    OrInsertKeeps(s.packages, key, Package(id, Resolving, false, NewDownload(0, None)));
    var t := Register(s, key, id).packages;
    forall k | 0 <= k < |t| ensures Made(t[k].value.download) {
      assert t[k] in t;
    }
  }

  lemma {:induction false} ModifyKeeps<V>(t: seq<Entry<V>>, key: Name, value: V)
    ensures |Modify(t, key, value)| == |t|
    ensures forall k | 0 <= k < |t| :: Modify(t, key, value)[k].key == t[k].key
    ensures forall e :: e in Modify(t, key, value) ==> e in t || e == Entry(key, value)
  {
    if t != [] && t[0].key != key {
      ModifyKeeps(t[1..], key, value);
      forall e | e in Modify(t, key, value) ensures e in t || e == Entry(key, value) {
        if e != t[0] { assert e in Modify(t[1..], key, value); }
      }
    } else if t != [] {
      assert t == [t[0]] + t[1..];
    }
  }

  /** A package that is already there is not counted again. */
  lemma {:induction false} CountedOnce<V>(t: seq<Entry<V>>, key: Name, value: V)
    requires Ascending(t) && Has(t, key)
    ensures OrInsert(t, key, value) == t
  {
    var k :| 0 <= k < |t| && t[k].key == key;
    if k > 0 {
      LessIsStrict(key);
      if Less(key, t[0].key) { LessTransitive(key, t[0].key, key); }
      KeysDiffer(t, 0, k);
      TailAscends(t);
      assert t[1..][k - 1].key == key;
      CountedOnce(t[1..], key, value);
    } else {
      LessIsStrict(key);
    }
  }

  /** A package to be acquired: the hash it is kept under, and its identity. */
  datatype Summary = Summary(hash: Name, id: Name)

  function RegisterAll(s: State, summaries: seq<Summary>): State {
    if summaries == [] then s
    else
      var last := summaries[|summaries| - 1];
      Register(RegisterAll(s, summaries[..|summaries| - 1]), last.hash, last.id)
  }

  function Less1(n: nat): nat {
    if n > 0 then n - 1 else 0
  }

  function Local(s: State, key: Name, package: Package): State {
    State(Less1(s.resolving), OrInsert(s.packages, key, package))
  }

  function Resolved(s: State, root: Option<Summary>, local: Name, id: Name, dists: seq<Summary>): State {
    var t := s.(resolving := Less1(s.resolving));
    RegisterAll(
      if root.Some? then Register(t, root.value.hash, root.value.id)
      else t.(packages := OrInsert(t.packages, local, Package(id, Loading, false, NewDownload(0, Some(0))))),
      dists)
  }

  function Updated(s: State, summary: Summary, phase: Phase, cached: bool, received: U64, total: Option<U64>): State {
    var t := Register(s, summary.hash, summary.id);
    t.(packages := Modify(t.packages, summary.hash,
                          Package(At(t.packages, summary.hash).id, phase, cached, NewDownload(received, total))))
  }

  function At(t: seq<Entry<Package>>, key: Name): Package {
    if t == [] then Package([], Resolving, false, NewDownload(0, None))
    else if t[0].key == key then t[0].value
    else At(t[1..], key)
  }

  lemma InsertKeeps(s: State, key: Name, package: Package)
    requires WellFormed(s) && Made(package.download)
    ensures WellFormed(s.(packages := OrInsert(s.packages, key, package)))
  {
    OrInsertKeeps(s.packages, key, package);
    var t := OrInsert(s.packages, key, package);
    forall k | 0 <= k < |t| ensures Made(t[k].value.download) {
      assert t[k] in t;
    }
  }

  lemma UpdateKeeps(s: State, summary: Summary, phase: Phase, cached: bool, received: U64, total: Option<U64>)
    requires WellFormed(s)
    ensures WellFormed(Updated(s, summary, phase, cached, received, total))
  {
    RegisterKeeps(s, summary.hash, summary.id);
    var t := Register(s, summary.hash, summary.id);
    var value := Package(At(t.packages, summary.hash).id, phase, cached, NewDownload(received, total));
    ModifyKeeps(t.packages, summary.hash, value);
    var u := Modify(t.packages, summary.hash, value);
    forall k | 0 <= k < |u| ensures Made(u[k].value.download) {
      assert u[k] in u;
    }
  }

  lemma {:induction false} ModifyReplaces<V>(t: seq<Entry<V>>, key: Name, value: V)
    requires Has(t, key)
    ensures Entry(key, value) in Modify(t, key, value)
    ensures forall e: Entry<V> | e.key != key :: e in Modify(t, key, value) <==> e in t
  {
    var k :| 0 <= k < |t| && t[k].key == key;
    assert t == [t[0]] + t[1..];
    if t[0].key == key {
      assert Modify(t, key, value)[0] == Entry(key, value);
    } else {
      assert t[1..][k - 1].key == key;
      ModifyReplaces(t[1..], key, value);
      assert Modify(t, key, value) == [t[0]] + Modify(t[1..], key, value);
    }
  }

  lemma {:induction false} AtIsThere(t: seq<Entry<Package>>, key: Name)
    requires Has(t, key)
    ensures Entry(key, At(t, key)) in t
  {
    var k :| 0 <= k < |t| && t[k].key == key;
    assert t == [t[0]] + t[1..];
    if t[0].key != key {
      assert t[1..][k - 1].key == key;
      AtIsThere(t[1..], key);
    } else {
      assert t[0] == Entry(key, At(t, key));
    }
  }

  lemma OneAtAKey<V>(t: seq<Entry<V>>, a: Entry<V>, b: Entry<V>)
    requires Ascending(t) && a in t && b in t && a.key == b.key
    ensures a == b
  {
    var i :| 0 <= i < |t| && t[i] == a;
    var j :| 0 <= j < |t| && t[j] == b;
    if i < j { KeysDiffer(t, i, j); } else if j < i { KeysDiffer(t, j, i); }
  }

  /** A package that is registered once more keeps its identity. */
  lemma KeepsItsName(s: State, key: Name, id: Name)
    requires WellFormed(s)
    ensures var p := At(Register(s, key, id).packages, key);
      && Has(Register(s, key, id).packages, key)
      && (!Has(s.packages, key) ==> p.id == id)
      && (forall e | e in s.packages && e.key == key :: p.id == e.value.id)
  {
    var u := Register(s, key, id).packages;
    RegisterKeeps(s, key, id);
    OrInsertKeeps(s.packages, key, Package(id, Resolving, false, NewDownload(0, None)));
    AtIsThere(u, key);
    forall e | e in s.packages && e.key == key ensures At(u, key).id == e.value.id {
      OneAtAKey(u, e, Entry(key, At(u, key)));
    }
    if !Has(s.packages, key) {
      assert Entry(key, At(u, key)) !in s.packages;
    }
  }

  /** What registering adds: a package that is being resolved, and of which nothing is known. */
  ghost predicate IsNew(e: Entry<Package>, hash: Name, id: Name, phase: Phase, total: Option<U64>) {
    e.key == hash && e.value.id == id && e.value.phase == phase && !e.value.cached && Says(e.value.download, 0, total)
  }

  lemma RegisterAdds(s: State, key: Name, id: Name)
    requires WellFormed(s)
    ensures var t := Register(s, key, id);
      && t.resolving == s.resolving && Has(t.packages, key)
      && (forall e | e in s.packages :: e in t.packages)
      && (forall e | e in t.packages :: e in s.packages || IsNew(e, key, id, Resolving, None))
  {
    OrInsertKeeps(s.packages, key, Package(id, Resolving, false, NewDownload(0, None)));
    DownloadSays(0, None);
  }

  lemma HasStays<V>(t: seq<Entry<V>>, u: seq<Entry<V>>, key: Name)
    requires Has(t, key) && forall e | e in t :: e in u
    ensures Has(u, key)
  {
    var k :| 0 <= k < |t| && t[k].key == key;
    assert t[k] in u;
  }

  lemma {:induction false} RegisterAllAdds(s: State, summaries: seq<Summary>)
    requires WellFormed(s)
    ensures var t := RegisterAll(s, summaries);
      && WellFormed(t) && t.resolving == s.resolving
      && (forall m | m in summaries :: Has(t.packages, m.hash))
      && (forall e | e in s.packages :: e in t.packages)
      && (forall e | e in t.packages :: e in s.packages || exists m :: m in summaries && IsNew(e, m.hash, m.id, Resolving, None))
  {
    if summaries != [] {
      var n := |summaries| - 1;
      var u, m := RegisterAll(s, summaries[..n]), summaries[n];
      RegisterAllAdds(s, summaries[..n]);
      RegisterKeeps(u, m.hash, m.id);
      RegisterAdds(u, m.hash, m.id);
      forall k | k in summaries ensures Has(Register(u, m.hash, m.id).packages, k.hash) {
        if k in summaries[..n] { HasStays(u.packages, Register(u, m.hash, m.id).packages, k.hash); }
      }
      assert m in summaries;
    }
  }

  /** A resolution counts one root less, and adds its root, or its local package, and each package to acquire, once; nothing that was there changes. */
  lemma ResolutionAdds(s: State, root: Option<Summary>, local: Name, id: Name, dists: seq<Summary>)
    requires WellFormed(s)
    ensures var t := Resolved(s, root, local, id, dists);
      && WellFormed(t)
      && t.resolving == (if s.resolving == 0 then 0 else s.resolving - 1)
      && (forall e | e in s.packages :: e in t.packages)
      && Has(t.packages, if root.Some? then root.value.hash else local)
      && (forall m | m in dists :: Has(t.packages, m.hash))
      && (forall e | e in t.packages ::
            || e in s.packages
            || (if root.Some? then IsNew(e, root.value.hash, root.value.id, Resolving, None) else IsNew(e, local, id, Loading, Some(0)))
            || exists m :: m in dists && IsNew(e, m.hash, m.id, Resolving, None))
  {
    var u := s.(resolving := Less1(s.resolving));
    var v := if root.Some? then Register(u, root.value.hash, root.value.id)
             else u.(packages := OrInsert(u.packages, local, Package(id, Loading, false, NewDownload(0, Some(0)))));
    if root.Some? {
      RegisterKeeps(u, root.value.hash, root.value.id);
      RegisterAdds(u, root.value.hash, root.value.id);
    } else {
      InsertKeeps(u, local, Package(id, Loading, false, NewDownload(0, Some(0))));
      OrInsertKeeps(u.packages, local, Package(id, Loading, false, NewDownload(0, Some(0))));
      DownloadSays(0, Some(0));
    }
    RegisterAllAdds(v, dists);
    HasStays(v.packages, RegisterAll(v, dists).packages, if root.Some? then root.value.hash else local);
  }

  /** A download's update is what the snapshot shows of that package, and no other package is touched. */
  lemma UpdateIsShown(s: State, summary: Summary, phase: Phase, cached: bool, received: U64, total: Option<U64>)
    requires WellFormed(s)
    ensures var t := Updated(s, summary, phase, cached, received, total).packages;
      && (exists p :: Entry(summary.hash, p) in t && p.phase == phase && p.cached == cached && Says(p.download, received, total)
            && (!Has(s.packages, summary.hash) ==> p.id == summary.id)
            && (forall e | e in s.packages && e.key == summary.hash :: p.id == e.value.id))
      && (forall e: Entry<Package> | e.key != summary.hash :: e in t <==> e in s.packages)
  {
    var u := Register(s, summary.hash, summary.id).packages;
    OrInsertKeeps(s.packages, summary.hash, Package(summary.id, Resolving, false, NewDownload(0, None)));
    var p := Package(At(u, summary.hash).id, phase, cached, NewDownload(received, total));
    ModifyReplaces(u, summary.hash, p);
    DownloadSays(received, total);
    KeepsItsName(s, summary.hash, summary.id);
    assert Entry(summary.hash, p) in Updated(s, summary, phase, cached, received, total).packages;
  }

  /** `Progress`, with its state updated under the lock. */
  class Progress {
    var resolving: nat
    var packages: seq<Entry<Package>>

    function View(): State
      reads this
    {
      State(resolving, packages)
    }

    ghost predicate Valid()
      reads this
    {
      WellFormed(View())
    }

    constructor (roots: nat)
      ensures Valid() && View() == State(roots, [])
    {
      resolving, packages := roots, [];
    }

    method AddLocal(key: Name, id: Name, cached: bool)
      requires Valid()
      modifies this
      ensures Valid()
      ensures View() == Local(old(View()), key, Package(id, Ready, cached, NewDownload(0, Some(0))))
    {
      InsertKeeps(View(), key, Package(id, Ready, cached, NewDownload(0, Some(0))));
      resolving := Less1(resolving);
      packages := OrInsert(packages, key, Package(id, Ready, cached, NewDownload(0, Some(0))));
    }

    method RegisterSummary(summary: Summary)
      requires Valid()
      modifies this
      ensures Valid()
      ensures View() == Register(old(View()), summary.hash, summary.id)
    {
      RegisterKeeps(View(), summary.hash, summary.id);
      packages := OrInsert(packages, summary.hash, Package(summary.id, Resolving, false, NewDownload(0, None)));
    }

    /** One root is resolved: it and the packages to be acquired for it are registered. */
    method Resolve(root: Option<Summary>, local: Name, id: Name, dists: seq<Summary>)
      requires Valid()
      modifies this
      ensures Valid()
      ensures View() == Resolved(old(View()), root, local, id, dists)
    {
      resolving := Less1(resolving);
      if root.Some? {
        RegisterSummary(root.value);
      } else {
        InsertKeeps(View(), local, Package(id, Loading, false, NewDownload(0, Some(0))));
        packages := OrInsert(packages, local, Package(id, Loading, false, NewDownload(0, Some(0))));
      }
      ghost var start := View();
      for i := 0 to |dists|
        invariant Valid()
        invariant View() == RegisterAll(start, dists[..i])
      {
        assert dists[..i + 1][..i] == dists[..i];
        RegisterSummary(dists[i]);
      }
      assert dists[..|dists|] == dists;
    }

    method Update(summary: Summary, phase: Phase, cached: bool, received: U64, total: Option<U64>)
      requires Valid()
      modifies this
      ensures Valid()
      ensures View() == Updated(old(View()), summary, phase, cached, received, total)
    {
      UpdateKeeps(View(), summary, phase, cached, received, total);
      RegisterSummary(summary);
      packages := Modify(packages, summary.hash,
        Package(At(packages, summary.hash).id, phase, cached, NewDownload(received, total)));
    }

    /** The saturating and the checked sum. */
    method Sums() returns (received: U64, total: Option<U64>)
      ensures received == SaturatedSum(packages) && total == CheckedSum(packages)
    {
      received, total := 0, Some(0);
      for i := 0 to |packages|
        invariant received == SaturatedSum(packages[..i]) && total == CheckedSum(packages[..i])
      {
        var d := packages[i].value.download;
        SumsOneMore(packages, i);
        received := if received + d.received > U64_MAX then U64_MAX else received + d.received;
        total := if total.None? || d.total.None? || total.value + d.total.value > U64_MAX then None
                 else Some(total.value + d.total.value);
      }
      assert packages[..|packages|] == packages;
    }

    /** The aggregate. */
    method TakeSnapshot(ready: bool) returns (snapshot: Snapshot)
      requires Valid()
      ensures snapshot == Take(View(), ready)
      ensures Summarizes(snapshot, resolving, ready) && Lists(snapshot, packages, ready)
    {
      var received, total := Sums();
      if resolving > 0 { total := None; }
      snapshot := Snapshot(SnapshotPhase(View(), ready), NewDownload(received, total), Listed(packages, ready));
      SnapshotsSummarize(View(), ready);
    }
  }

  // ----- observing -----

  datatype Change = Nothing | Changed | SenderGone

  /** What one pass of the select loop finds, and the state and clock it would read. */
  datatype Turn = Turn(cancelled: bool, work: Option<bool>, change: Change, state: State, due: bool)

  datatype Result = Pending | Cancelled | Finished(ok: bool)

  datatype Observed = Observed(result: Result, sent: seq<Snapshot>)

  /** The package with this identity that `find` comes to first. */
  function Find(packages: seq<Package>, id: Name): Option<Package> {
    if packages == [] then None else if packages[0].id == id then Some(packages[0]) else Find(packages[1..], id)
  }

  predicate PhaseChanged(next: Snapshot, last: Snapshot) {
    || next.phase != last.phase
    || exists k :: 0 <= k < |next.packages| &&
         var was := Find(last.packages, next.packages[k].id);
         was.None? || was.value.phase != next.packages[k].phase
  }

  function AfterTurn(o: Observed, turn: Turn): Observed {
    if !o.result.Pending? || o.sent == [] then o
    else if turn.cancelled then o.(result := Cancelled)
    else if turn.work.Some? then
      Observed(Finished(turn.work.value), if turn.work.value then o.sent + [Take(turn.state, true)] else o.sent)
    else if turn.change.Changed? && (PhaseChanged(Take(turn.state, false), o.sent[|o.sent| - 1]) || turn.due) then
      o.(sent := o.sent + [Take(turn.state, false)])
    else o
  }

  /** `observe` with an observer, on an operation that is not cancelled before it starts. */
  function Observe(initial: State, turns: seq<Turn>): Observed {
    if turns == [] then Observed(Pending, [Take(initial, false)])
    else AfterTurn(Observe(initial, turns[..|turns| - 1]), turns[|turns| - 1])
  }

  /** What the operation itself comes to: the first turn that cancels it or finishes its work decides. */
  function Outcome(turns: seq<Turn>): Result {
    if turns == [] then Pending
    else if turns[0].cancelled then Cancelled
    else if turns[0].work.Some? then Finished(turns[0].work.value)
    else Outcome(turns[1..])
  }

  lemma {:induction false} OutcomeSnoc(turns: seq<Turn>, last: Turn)
    ensures Outcome(turns + [last]) == if Outcome(turns).Pending? then Outcome([last]) else Outcome(turns)
  {
    if turns == [] {
      assert turns + [last] == [last];
    } else {
      assert (turns + [last])[1..] == turns[1..] + [last];
      OutcomeSnoc(turns[1..], last);
    }
  }

  lemma {:induction false} ObserveShape(initial: State, turns: seq<Turn>)
    ensures var o := Observe(initial, turns);
      && o.sent != [] && o.sent[0] == Take(initial, false)
      && o.result == Outcome(turns)
      && (forall k | 0 <= k < |o.sent| - 1 :: !o.sent[k].phase.Ready?)
      && (o.sent[|o.sent| - 1].phase.Ready? <==> o.result == Finished(true))
  {
    if turns != [] {
      ObserveShape(initial, turns[..|turns| - 1]);
      OutcomeSnoc(turns[..|turns| - 1], turns[|turns| - 1]);
      assert turns == turns[..|turns| - 1] + [turns[|turns| - 1]];
    }
  }

  /**
    The observer hears of an aggregate phase Ready at most once, as the last
    thing it hears, and exactly when the work succeeded before a cancellation.
    What it hears does not change the outcome.
  */
  lemma ReadyIsLastAndTrue(initial: State, turns: seq<Turn>)
    ensures var o := Observe(initial, turns);
      && o.result == Outcome(turns)
      && ((exists k :: 0 <= k < |o.sent| && o.sent[k].phase.Ready?) <==> Outcome(turns) == Finished(true))
      && (forall k | 0 <= k < |o.sent| && o.sent[k].phase.Ready? :: k == |o.sent| - 1)
  {
    ObserveShape(initial, turns);
  }

  /** Every package of one snapshot is in another, in the same phase, where its identity comes first; and the aggregate agrees. */
  ghost predicate SamePhases(next: Snapshot, last: Snapshot) {
    && next.phase == last.phase
    && forall k | 0 <= k < |next.packages| :: ShownAs(last.packages, next.packages[k].id, next.packages[k].phase)
  }

  ghost predicate ShownAs(packages: seq<Package>, id: Name, phase: Phase) {
    exists j ::
      && 0 <= j < |packages| && packages[j].id == id && packages[j].phase == phase
      && forall i | 0 <= i < j :: packages[i].id != id
  }

  lemma {:induction false} FoundIsShown(packages: seq<Package>, id: Name, phase: Phase)
    ensures ShownAs(packages, id, phase) <==> Find(packages, id).Some? && Find(packages, id).value.phase == phase
  {
    if packages != [] {
      if packages[0].id == id {
        if packages[0].phase == phase { assert packages[0].id == id; }
      } else {
        FoundIsShown(packages[1..], id, phase);
        if j :| 0 <= j < |packages[1..]| && packages[1..][j].id == id && packages[1..][j].phase == phase
                && forall i | 0 <= i < j :: packages[1..][i].id != id {
          assert packages[j + 1] == packages[1..][j];
          assert forall i | 1 <= i < j + 1 :: packages[i] == packages[1..][i - 1];
        }
        if j :| 0 <= j < |packages| && packages[j].id == id && packages[j].phase == phase
                && forall i | 0 <= i < j :: packages[i].id != id {
          assert packages[1..][j - 1] == packages[j];
          assert forall i | 0 <= i < j - 1 :: packages[1..][i] == packages[i + 1];
        }
      }
    }
  }

  lemma ChangedExactly(next: Snapshot, last: Snapshot)
    ensures PhaseChanged(next, last) <==> !SamePhases(next, last)
  {
    forall k | 0 <= k < |next.packages|
      ensures ShownAs(last.packages, next.packages[k].id, next.packages[k].phase) <==>
              Find(last.packages, next.packages[k].id).Some? && Find(last.packages, next.packages[k].id).value.phase == next.packages[k].phase
    {
      FoundIsShown(last.packages, next.packages[k].id, next.packages[k].phase);
    }
  }

  /**
    While the work goes on, a turn sends the present snapshot if and only if
    something changed and a phase differs from the last one sent, or it is time;
    so after a change the last one sent is the present one or agrees with it.
  */
  lemma ObserverKeepsUp(initial: State, turns: seq<Turn>)
    requires turns != [] && Outcome(turns).Pending?
    ensures var before, turn := Observe(initial, turns[..|turns| - 1]).sent, turns[|turns| - 1];
      && before != []
      && var now, last := Take(turn.state, false), before[|before| - 1];
         Observe(initial, turns).sent ==
           before + if turn.change == Changed && (turn.due || !SamePhases(now, last)) then [now] else []
  {
    var before, turn := Observe(initial, turns[..|turns| - 1]).sent, turns[|turns| - 1];
    ObserveShape(initial, turns[..|turns| - 1]);
    ChangedExactly(Take(turn.state, false), before[|before| - 1]);
    ObserveShape(initial, turns);
    ObserveShape(initial, turns[..|turns| - 1]);
    OutcomeSnoc(turns[..|turns| - 1], turns[|turns| - 1]);
    assert turns == turns[..|turns| - 1] + [turns[|turns| - 1]];
  }

  /** The loop of `observe`. */
  method RunObserve(cancelled: bool, observer: bool, initial: State, turns: seq<Turn>)
    returns (result: Result, sent: seq<Snapshot>)
    ensures result == if cancelled then Cancelled else Outcome(turns)
    ensures sent == if cancelled || !observer then [] else Observe(initial, turns).sent
  {
    sent := [];
    if cancelled { return Cancelled, []; }
    if !observer {
      for i := 0 to |turns|
        invariant Outcome(turns) == Outcome(turns[i..])
      {
        if turns[i].cancelled { return Cancelled, []; }
        if turns[i].work.Some? { return Finished(turns[i].work.value), []; }
        assert turns[i..][1..] == turns[i + 1..];
      }
      return Pending, [];
    }
    var last := Take(initial, false);
    sent := [last];
    for i := 0 to |turns|
      invariant Observe(initial, turns[..i]) == Observed(Pending, sent)
      invariant sent != [] && last == sent[|sent| - 1]
    {
      var turn := turns[i];
      assert turns[..i + 1][..i] == turns[..i];
      ghost var next := Observe(initial, turns[..i + 1]);
      if turn.cancelled || turn.work.Some? {
        Decided(initial, turns, i + 1);
        ObserveShape(initial, turns[..i + 1]);
        ObserveShape(initial, turns);
        if turn.cancelled { return Cancelled, sent; }
        if turn.work.value { sent := sent + [Take(turn.state, true)]; }
        return Finished(turn.work.value), sent;
      }
      if turn.change.Changed? {
        var now := Take(turn.state, false);
        if PhaseChanged(now, last) || turn.due {
          sent, last := sent + [now], now;
        }
      }
    }
    assert turns[..|turns|] == turns;
    ObserveShape(initial, turns);
    result := Pending;
  }

  /** Turns after the deciding one change nothing. */
  lemma {:induction false} Decided(initial: State, turns: seq<Turn>, i: nat)
    requires i <= |turns| && !Observe(initial, turns[..i]).result.Pending?
    ensures Observe(initial, turns) == Observe(initial, turns[..i])
  {
    if i == |turns| {
      assert turns[..i] == turns;
    } else {
      assert turns[..|turns| - 1][..i] == turns[..i];
      Decided(initial, turns[..|turns| - 1], i);
    }
  }
}
