/** eBPF/tcpconnect.bpf.c: the kprobe on `tcp_connect` that counts calls per
    process in the kernel hash map `counts` (key u32 pid, value u64 count, at
    most 8192 entries).

    One probe invocation runs at a time; the atomic add is a plain increment
    of the stored value with 64-bit wrap-around. */
module TcpConnect {
  import opened Ints
  import opened Wrappers

  /** `max_entries` of the `counts` map. */
  const MaxEntries: nat := 8192

  /** Names the object file declares, looked up by the user-space loader. */
  const ProgramName := "on_tcp_connect"
  const MapName := "counts"
  const Section := "kprobe/tcp_connect"

  /** errno returned by a hash-map insert into a full map. */
  const E2BIG := 7

  /** `bpf_get_current_pid_tgid() >> 32`: the upper half of the 64-bit word,
      the thread-group id that user space calls the pid. */
  function PidOf(pidTgid: u64): (pid: u32)
    ensures pid * Two32 <= pidTgid < (pid + 1) * Two32
  {
    pidTgid / Two32
  }

  /** Adding one to a u64 counter, wrapping to 0 after the largest value. */
  function WrapInc(v: u64): (r: u64)
    ensures v + 1 < Two64 ==> r == v + 1
    ensures v + 1 == Two64 ==> r == 0
  {
    if v + 1 < Two64 then v + 1 else 0
  }

  /** The kernel hash map, updated in place by the probe. */
  class CountsMap {
    var entries: map<u32, u64>

    ghost predicate Valid()
      reads this
    {
      |entries| <= MaxEntries
    }

    constructor ()
      ensures Valid() && entries == map[]
    {
      entries := map[];
    }

    /** `bpf_map_lookup_elem`: the value slot of `key`, if any. */
    method LookupElem(key: u32) returns (slot: Option<u64>)
      ensures slot.Some? <==> key in entries
      ensures slot.Some? ==> slot.value == entries[key]
    {
      slot := if key in entries then Some(entries[key]) else None;
    }

    /** `__sync_fetch_and_add(slot, 1)` on the slot of a present key. */
    method FetchAndAdd(key: u32) returns (previous: u64)
      requires Valid() && key in entries
      modifies this
      ensures Valid()
      ensures previous == old(entries[key])
      ensures entries == old(entries)[key := WrapInc(previous)]
    {
      previous := entries[key];
      entries := entries[key := WrapInc(previous)];
    }

    /** `bpf_map_update_elem(..., BPF_ANY)`: overwrite or insert; inserting a
        new key into a full map fails with -E2BIG and changes nothing. */
    method UpdateElem(key: u32, value: u64) returns (rc: int)
      requires Valid()
      modifies this
      ensures Valid()
      ensures key in old(entries) || |old(entries)| < MaxEntries ==>
                rc == 0 && entries == old(entries)[key := value]
      ensures key !in old(entries) && |old(entries)| >= MaxEntries ==>
                rc == -E2BIG && entries == old(entries)
    {
      if key in entries || |entries| < MaxEntries {
        entries := entries[key := value];
        rc := 0;
      } else {
        rc := -E2BIG;
      }
    }
  }

  /** The table after one probe call: the caller's count goes up by one, or
      the caller is inserted with count 1 if there is room; nothing else
      changes, and the capacity is never exceeded. */
  function Probe(m: map<u32, u64>, pidTgid: u64): (r: map<u32, u64>)
    ensures forall k :: k in m ==> k in r
    ensures forall k :: k in r && k != PidOf(pidTgid) ==> k in m && r[k] == m[k]
    ensures PidOf(pidTgid) in m ==> r[PidOf(pidTgid)] == WrapInc(m[PidOf(pidTgid)])
    ensures PidOf(pidTgid) !in m ==>
              (PidOf(pidTgid) in r <==> |m| < MaxEntries) &&
              (PidOf(pidTgid) in r ==> r[PidOf(pidTgid)] == 1)
    ensures |r| <= |m| + 1
    ensures |m| <= MaxEntries ==> |r| <= MaxEntries
  {
    var pid := PidOf(pidTgid);
    if pid in m then m[pid := WrapInc(m[pid])]
    else if |m| < MaxEntries then m[pid := 1]
    else m
  }

  /** `on_tcp_connect`: look the caller up, bump its slot or insert 1 (the
      insert's result is ignored), and return 0. */
  method OnTcpConnect(counts: CountsMap, pidTgid: u64) returns (rc: int)
    requires counts.Valid()
    modifies counts
    ensures counts.Valid()
    ensures rc == 0
    ensures counts.entries == Probe(old(counts.entries), pidTgid)
  {
    var pid := PidOf(pidTgid);
    var init: u64 := 1;
    var slot := counts.LookupElem(pid);
    if slot.Some? {
      var _ := counts.FetchAndAdd(pid);
    } else {
      var _ := counts.UpdateElem(pid, init);
    }
    rc := 0;
  }

  // ---------------------------------------------------------------------------
  // A run of probe calls
  // ---------------------------------------------------------------------------

  /** The table after the calls `calls` (their pid_tgid words, in order). */
  function ProbeAll(m: map<u32, u64>, calls: seq<u64>): map<u32, u64>
    decreases |calls|
  {
    if calls == [] then m else Probe(ProbeAll(m, calls[..|calls| - 1]), calls[|calls| - 1])
  }

  /** How many of `calls` came from process `p`. */
  function CallsBy(calls: seq<u64>, p: u32): nat
    decreases |calls|
  {
    if calls == [] then 0
    else CallsBy(calls[..|calls| - 1], p) + (if PidOf(calls[|calls| - 1]) == p then 1 else 0)
  }

  /** The map never holds more than 8192 entries, whatever the calls. */
  lemma {:induction false} ProbeAllBounded(m: map<u32, u64>, calls: seq<u64>)
    requires |m| <= MaxEntries
    ensures |ProbeAll(m, calls)| <= MaxEntries
    ensures |ProbeAll(m, calls)| <= |m| + |calls|
    decreases |calls|
  {
    if calls != [] {
      ProbeAllBounded(m, calls[..|calls| - 1]);
    }
  }

  /** Keys are never removed by probes. */
  lemma {:induction false} ProbeAllKeeps(m: map<u32, u64>, calls: seq<u64>, p: u32)
    requires p in m
    ensures p in ProbeAll(m, calls)
    decreases |calls|
  {
    if calls != [] {
      ProbeAllKeeps(m, calls[..|calls| - 1], p);
    }
  }

  /** The purpose of the program: while the map has room and the count does
      not wrap, the value stored for a process is its earlier value plus the
      number of tcp_connect calls it made, and it is present exactly when it
      was present before or made a call. */
  lemma {:induction false} CountIsNumberOfConnects(m: map<u32, u64>, calls: seq<u64>, p: u32)
    requires |m| <= MaxEntries
    requires p in m || |m| + |calls| <= MaxEntries
    requires (if p in m then m[p] else 0) + CallsBy(calls, p) < Two64
    ensures p in ProbeAll(m, calls) <==> p in m || CallsBy(calls, p) > 0
    ensures p in ProbeAll(m, calls) ==>
              ProbeAll(m, calls)[p] == (if p in m then m[p] else 0) + CallsBy(calls, p)
    decreases |calls|
  {
    if calls != [] {
      var prefix := calls[..|calls| - 1];
      var last := calls[|calls| - 1];
      CountIsNumberOfConnects(m, prefix, p);
      ProbeAllBounded(m, prefix);
      var before := ProbeAll(m, prefix);
      assert ProbeAll(m, calls) == Probe(before, last);
    }
  }
}
