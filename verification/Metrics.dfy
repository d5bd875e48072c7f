/** pkg/metrics/collector.go: one collection cycle over the kernel `counts`
    table and the `tcp_connects_by_pid` gauge family it feeds.

    The gauge family is a map from label pairs (pid, comm) to the last value
    set for them; `Set` stores the integer count (the conversion to float64 is
    not modelled). The table is the map's contents at the time of the cycle,
    and `/proc` is the file-system input of Procfs. */
module Metrics {
  import opened Wrappers
  import opened Ints
  import Procfs

  /** time.Duration is a count of nanoseconds. */
  const Second: int := 1_000_000_000

  const GaugeName := "tcp_connects_by_pid"

  datatype PidCount = PidCount(pid: u32, val: u64)

  datatype Labels = Labels(pid: string, comm: string)

  /** NewCollector: an unset (zero) interval becomes five seconds; any other
      value, negative ones included, is kept. */
  function EffectiveInterval(configured: int): (d: int)
    ensures configured == 0 ==> d == 5 * Second
    ensures configured != 0 ==> d == configured
    ensures d != 0
  {
    if configured == 0 then 5 * Second else configured
  }

  // ---------------------------------------------------------------------------
  // Specification of a cycle
  // ---------------------------------------------------------------------------

  function PidsOf(s: seq<PidCount>): set<u32> {
    set i | 0 <= i < |s| :: s[i].pid
  }

  lemma PidsOfSnoc(s: seq<PidCount>, x: PidCount)
    ensures PidsOf(s + [x]) == PidsOf(s) + {x.pid}
  {
    var t := s + [x];
    forall p | p in PidsOf(t) ensures p in PidsOf(s) + {x.pid} {
      var i :| 0 <= i < |t| && t[i].pid == p;
      if i < |s| { assert t[i] == s[i]; }
    }
    forall p | p in PidsOf(s) ensures p in PidsOf(t) {
      var i :| 0 <= i < |s| && s[i].pid == p;
      assert t[i] == s[i];
    }
    assert t[|s|] == x;
  }

  /** No pid occurs twice. */
  predicate DistinctPids(s: seq<PidCount>) {
    forall i, j :: 0 <= i < |s| && 0 <= j < |s| && i != j ==> s[i].pid != s[j].pid
  }

  /** Every entry is one of the table's (pid, value) pairs. */
  predicate FromTable(s: seq<PidCount>, table: map<u32, u64>) {
    forall i :: 0 <= i < |s| ==> s[i].pid in table && table[s[i].pid] == s[i].val
  }

  predicate Ascending(s: seq<PidCount>) {
    forall i, j :: 0 <= i < j < |s| ==> s[i].pid <= s[j].pid
  }

  predicate StrictlyAscending(s: seq<PidCount>) {
    forall i, j :: 0 <= i < j < |s| ==> s[i].pid < s[j].pid
  }

  /** The labels a pid is published under: its decimal rendering and its
      process name at the time of the cycle. */
  function LabelsOf(pid: u32, fs: map<string, string>): Labels {
    Labels(Procfs.Decimal(pid), Procfs.GetProcessName(pid, fs))
  }

  /** Distinct pids are published under distinct label pairs, and the pid
      label reads back as the pid. */
  lemma LabelsOfInjective(p: u32, q: u32, fs: map<string, string>)
    ensures Procfs.ParseDecimal(LabelsOf(p, fs).pid) == p
    ensures LabelsOf(p, fs) == LabelsOf(q, fs) ==> p == q
  {
    Procfs.DecimalRoundTrip(p);
    Procfs.DecimalInjective(p, q);
  }

  function LabelSet(s: seq<PidCount>, fs: map<string, string>): set<Labels> {
    set i | 0 <= i < |s| :: LabelsOf(s[i].pid, fs)
  }

  /** The gauge family after setting, in order, the gauge of every entry of
      `s` to its value. */
  function Publish(gauge: map<Labels, u64>, s: seq<PidCount>, fs: map<string, string>): map<Labels, u64>
    decreases |s|
  {
    if s == [] then gauge
    else Publish(gauge, s[..|s| - 1], fs)[LabelsOf(s[|s| - 1].pid, fs) := s[|s| - 1].val]
  }

  /** One more step of the fold sets one more gauge. */
  lemma PublishSnoc(gauge: map<Labels, u64>, s: seq<PidCount>, fs: map<string, string>, i: nat)
    requires i < |s|
    ensures Publish(gauge, s[..i + 1], fs) == Publish(gauge, s[..i], fs)[LabelsOf(s[i].pid, fs) := s[i].val]
  {
    assert s[..i + 1][..i] == s[..i];
  }

  lemma LabelSetSnoc(s: seq<PidCount>, fs: map<string, string>)
    requires s != []
    ensures LabelSet(s, fs) == LabelSet(s[..|s| - 1], fs) + {LabelsOf(s[|s| - 1].pid, fs)}
  {
    var prefix := s[..|s| - 1];
    forall l | l in LabelSet(s, fs) ensures l in LabelSet(prefix, fs) + {LabelsOf(s[|s| - 1].pid, fs)} {
      var i :| 0 <= i < |s| && l == LabelsOf(s[i].pid, fs);
      if i < |s| - 1 {
        assert prefix[i] == s[i];
      }
    }
    forall l | l in LabelSet(prefix, fs) ensures l in LabelSet(s, fs) {
      var i :| 0 <= i < |prefix| && l == LabelsOf(prefix[i].pid, fs);
      assert prefix[i] == s[i];
    }
    var n := |s| - 1;
    assert LabelsOf(s[n].pid, fs) in LabelSet(s, fs);
  }

  /** A cycle only adds label pairs: those of earlier cycles stay, and those
      of the published entries appear. */
  lemma {:induction false} PublishKeys(gauge: map<Labels, u64>, s: seq<PidCount>, fs: map<string, string>)
    ensures Publish(gauge, s, fs).Keys == gauge.Keys + LabelSet(s, fs)
    decreases |s|
  {
    if s != [] {
      PublishKeys(gauge, s[..|s| - 1], fs);
      LabelSetSnoc(s, fs);
    }
  }

  /** Every published entry leaves its value under its own labels: with
      distinct pids no later update overwrites an earlier one. */
  lemma {:induction false} PublishSetsEach(gauge: map<Labels, u64>, s: seq<PidCount>, fs: map<string, string>, i: nat)
    requires DistinctPids(s) && i < |s|
    ensures LabelsOf(s[i].pid, fs) in Publish(gauge, s, fs)
    ensures Publish(gauge, s, fs)[LabelsOf(s[i].pid, fs)] == s[i].val
    decreases |s|
  {
    var n := |s| - 1;
    if i < n {
      var prefix := s[..n];
      assert DistinctPids(prefix);
      assert prefix[i] == s[i];
      PublishSetsEach(gauge, prefix, fs, i);
      LabelsOfInjective(s[i].pid, s[n].pid, fs);
      PublishLastOnly(gauge, s, fs, LabelsOf(s[i].pid, fs));
    }
  }

  /** The last entry of `s` only sets its own label pair. */
  lemma PublishLastOnly(gauge: map<Labels, u64>, s: seq<PidCount>, fs: map<string, string>, l: Labels)
    requires s != [] && l != LabelsOf(s[|s| - 1].pid, fs)
    ensures l in Publish(gauge, s, fs) <==> l in Publish(gauge, s[..|s| - 1], fs)
    ensures l in Publish(gauge, s, fs) ==> Publish(gauge, s, fs)[l] == Publish(gauge, s[..|s| - 1], fs)[l]
  {
  }

  /** Label pairs the cycle does not touch keep their earlier values. */
  lemma {:induction false} PublishKeepsOthers(gauge: map<Labels, u64>, s: seq<PidCount>, fs: map<string, string>, l: Labels)
    requires l in gauge && l !in LabelSet(s, fs)
    ensures l in Publish(gauge, s, fs) && Publish(gauge, s, fs)[l] == gauge[l]
    decreases |s|
  {
    if s != [] {
      var prefix := s[..|s| - 1];
      PublishKeepsOthers(gauge, prefix, fs, l);
      LabelSetSnoc(s, fs);
    }
  }

  // ---------------------------------------------------------------------------
  // The panic-recovery rule of Start
  // ---------------------------------------------------------------------------

  /** What `recover()` returned in the collection goroutine. */
  datatype Recovered = NoPanic | PanicError(err: string) | PanicOther(value: string)

  datatype PanicReport = PanicReport(logged: bool, delivered: Option<string>)

  /** Any panic is logged; it reaches `onError` only when a callback is
      configured and the panic value is an `error`. */
  function ReportPanic(r: Recovered, hasOnError: bool): (rep: PanicReport)
    ensures rep.logged <==> !r.NoPanic?
    ensures rep.delivered.Some? <==> hasOnError && r.PanicError?
    ensures rep.delivered.Some? ==> rep.delivered.value == r.err
  {
    if r.NoPanic? then PanicReport(false, None)
    else if hasOnError && r.PanicError? then PanicReport(true, Some(r.err))
    else PanicReport(true, None)
  }

  // ---------------------------------------------------------------------------
  // The steps of collect
  // ---------------------------------------------------------------------------

  /** Iterate the table into a list. The iteration order is unspecified. When
      the iterator fails (`failAfter` entries in), `Next` returns false and the
      list holds what was read so far: collect never looks at `iter.Err()`. */
  method Drain(table: map<u32, u64>, failAfter: Option<nat>) returns (counts: seq<PidCount>)
    ensures FromTable(counts, table) && DistinctPids(counts)
    ensures failAfter.None? ==> PidsOf(counts) == table.Keys && |counts| == |table|
    ensures failAfter.Some? ==>
              |counts| == if failAfter.value < |table| then failAfter.value else |table|
  {
    counts := [];
    var rest := table.Keys;
    assert |rest| == |table|;
    while rest != {} && (failAfter.None? || |counts| < failAfter.value)
      invariant rest <= table.Keys
      invariant FromTable(counts, table) && DistinctPids(counts)
      invariant PidsOf(counts) == table.Keys - rest
      invariant |counts| + |rest| == |table|
      invariant failAfter.Some? ==> |counts| <= failAfter.value
      decreases rest
    {
      var pid :| pid in rest;
      var entry := PidCount(pid, table[pid]);
      DrainStep(counts, entry, table, rest);
      counts := counts + [entry];
      rest := rest - {pid};
    }
  }

  /** Appending an entry for a pid not yet read keeps the list a
      duplicate-free selection of table entries. */
  lemma DrainStep(counts: seq<PidCount>, entry: PidCount, table: map<u32, u64>, rest: set<u32>)
    requires FromTable(counts, table) && DistinctPids(counts)
    requires rest <= table.Keys && PidsOf(counts) == table.Keys - rest
    requires entry.pid in rest && entry.val == table[entry.pid]
    ensures FromTable(counts + [entry], table) && DistinctPids(counts + [entry])
    ensures PidsOf(counts + [entry]) == table.Keys - (rest - {entry.pid})
  {
    assert forall i :: 0 <= i < |counts| ==> counts[i].pid in PidsOf(counts);
    PidsOfSnoc(counts, entry);
  }

  /** `sort.Slice` by pid on the local list: a permutation of the input in
      ascending pid order, strictly ascending when the pids are distinct. */
  method SortByPid(counts: seq<PidCount>) returns (sorted: seq<PidCount>)
    ensures multiset(sorted) == multiset(counts)
    ensures Ascending(sorted)
    ensures DistinctPids(counts) ==> DistinctPids(sorted) && StrictlyAscending(sorted)
  {
    sorted := counts;
    var i := 0;
    while i < |sorted|
      invariant 0 <= i <= |sorted| == |counts|
      invariant multiset(sorted) == multiset(counts)
      invariant forall p, q :: 0 <= p < q < i ==> sorted[p].pid <= sorted[q].pid
      invariant forall p, q :: 0 <= p < i <= q < |sorted| ==> sorted[p].pid <= sorted[q].pid
      invariant DistinctPids(counts) ==> DistinctPids(sorted)
    {
      var m := MinPidFrom(sorted, i);
      sorted := Swap(sorted, i, m);
      i := i + 1;
    }
  }

  /** The position of a smallest pid in `s[i..]`. */
  method MinPidFrom(s: seq<PidCount>, i: nat) returns (m: nat)
    requires i < |s|
    ensures i <= m < |s|
    ensures forall k :: i <= k < |s| ==> s[m].pid <= s[k].pid
  {
    m := i;
    var j := i + 1;
    while j < |s|
      invariant i <= m < |s| && i + 1 <= j <= |s|
      invariant forall k :: i <= k < j ==> s[m].pid <= s[k].pid
    {
      if s[j].pid < s[m].pid {
        m := j;
      }
      j := j + 1;
    }
  }

  function Swap(s: seq<PidCount>, i: nat, j: nat): (t: seq<PidCount>)
    requires i < |s| && j < |s|
    ensures |t| == |s| && t[i] == s[j] && t[j] == s[i]
    ensures forall k :: 0 <= k < |s| && k != i && k != j ==> t[k] == s[k]
    ensures multiset(t) == multiset(s)
    ensures DistinctPids(s) ==> DistinctPids(t)
  {
    s[i := s[j]][j := s[i]]
  }

  // ---------------------------------------------------------------------------
  // The collector object
  // ---------------------------------------------------------------------------

  class Collector {
    /** The `tcp_connects_by_pid` gauge family. */
    var gauge: map<Labels, u64>
    const name: string
    const interval: int
    const hasOnError: bool

    /** NewCollector: a fresh gauge family with no label pairs. */
    constructor (configuredInterval: int, hasOnError: bool)
      ensures interval == EffectiveInterval(configuredInterval)
      ensures this.hasOnError == hasOnError
      ensures name == GaugeName && gauge == map[]
    {
      name := GaugeName;
      interval := EffectiveInterval(configuredInterval);
      this.hasOnError := hasOnError;
      gauge := map[];
    }

    /** collect: drain the table, sort by pid, then set the gauge of each
        entry in that order. `published` is the sorted list, for the contract. */
    method Collect(table: map<u32, u64>, failAfter: Option<nat>, fs: map<string, string>)
      returns (ghost published: seq<PidCount>)
      modifies this
      ensures FromTable(published, table) && StrictlyAscending(published) && DistinctPids(published)
      ensures failAfter.None? ==> PidsOf(published) == table.Keys
      ensures gauge == Publish(old(gauge), published, fs)
    {
      var counts := Drain(table, failAfter);
      var sorted := SortByPid(counts);
      SortedFromTable(counts, sorted, table);
      UpdateGauges(sorted, fs);
      published := sorted;
    }

    /** The update loop of collect: one `Set` per entry, in list order. */
    method UpdateGauges(counts: seq<PidCount>, fs: map<string, string>)
      modifies this
      ensures gauge == Publish(old(gauge), counts, fs)
    {
      for i := 0 to |counts|
        invariant gauge == Publish(old(gauge), counts[..i], fs)
      {
        var pc := counts[i];
        var labels := LabelsOf(pc.pid, fs);
        PublishSnoc(old(gauge), counts, fs, i);
        gauge := gauge[labels := pc.val];
      }
      assert counts[..|counts|] == counts;
    }
  }

  /** Sorting keeps the entries, so the sorted list still holds exactly the
      drained table entries. */
  lemma SortedFromTable(counts: seq<PidCount>, sorted: seq<PidCount>, table: map<u32, u64>)
    requires multiset(sorted) == multiset(counts) && FromTable(counts, table)
    ensures FromTable(sorted, table)
    ensures PidsOf(sorted) == PidsOf(counts)
  {
    forall i | 0 <= i < |sorted| ensures sorted[i].pid in table && table[sorted[i].pid] == sorted[i].val {
      assert sorted[i] in multiset(counts);
    }
    forall p | p in PidsOf(counts) ensures p in PidsOf(sorted) {
      var i :| 0 <= i < |counts| && counts[i].pid == p;
      assert counts[i] in multiset(sorted);
      var j :| 0 <= j < |sorted| && sorted[j] == counts[i];
    }
    forall p | p in PidsOf(sorted) ensures p in PidsOf(counts) {
      var i :| 0 <= i < |sorted| && sorted[i].pid == p;
      assert sorted[i] in multiset(counts);
      var j :| 0 <= j < |counts| && counts[j] == sorted[i];
    }
  }

  /** After a cycle over a fully drained table, every pid of the table is
      published under (decimal pid, process name) with its count, and label
      pairs of earlier cycles that this cycle did not touch survive unchanged. */
  lemma CycleOutcome(gauge: map<Labels, u64>, published: seq<PidCount>, table: map<u32, u64>,
                     fs: map<string, string>, pid: u32, l: Labels)
    requires FromTable(published, table) && DistinctPids(published) && PidsOf(published) == table.Keys
    ensures pid in table ==>
              LabelsOf(pid, fs) in Publish(gauge, published, fs) &&
              Publish(gauge, published, fs)[LabelsOf(pid, fs)] == table[pid]
    ensures l in gauge && l !in LabelSet(published, fs) ==>
              l in Publish(gauge, published, fs) && Publish(gauge, published, fs)[l] == gauge[l]
    ensures gauge.Keys <= Publish(gauge, published, fs).Keys
  {
    PublishKeys(gauge, published, fs);
    if pid in table {
      var i :| 0 <= i < |published| && published[i].pid == pid;
      PublishSetsEach(gauge, published, fs, i);
    }
    if l in gauge && l !in LabelSet(published, fs) {
      PublishKeepsOthers(gauge, published, fs, l);
    }
  }
}
