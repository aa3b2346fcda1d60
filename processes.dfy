/**
 * `get_top_processes`: read every process, skip the ones that vanished or
 * deny access, sort by CPU then memory usage, highest first, keep the first n.
 */
module Processes {
  import opened Wrappers
  import opened Metrics

  /** Why reading one process failed. */
  datatype ReadError = NoSuchProcess | AccessDenied | OtherError(kind: string)

  /** The outcome of reading one enumerated process. */
  datatype ProcRead = Read(info: ProcInfo) | Failed(error: ReadError)

  /** The two failures the enumeration absorbs; any other one escapes. */
  predicate Skippable(e: ReadError) {
    e.NoSuchProcess? || e.AccessDenied?
  }

  predicate Fatal(r: ProcRead) {
    r.Failed? && !Skippable(r.error)
  }

  /** The processes read successfully, in enumeration order. */
  function Readable(entries: seq<ProcRead>): (procs: seq<ProcInfo>)
    ensures |procs| <= |entries|
    ensures forall p :: p in procs <==> Read(p) in entries
  {
    if entries == [] then []
    else
      var init, last := entries[..|entries| - 1], entries[|entries| - 1];
      assert entries == init + [last];
      Readable(init) + (if last.Read? then [last.info] else [])
  }

  /** The first failure that escapes the enumeration, if any. */
  function FirstFatal(entries: seq<ProcRead>): (e: Option<ReadError>)
    ensures e.None? <==> forall i :: 0 <= i < |entries| ==> !Fatal(entries[i])
    ensures e.Some? ==> Failed(e.value) in entries && !Skippable(e.value)
    ensures e.Some? ==> exists i :: 0 <= i < |entries| && entries[i] == Failed(e.value) && NoneFatalBefore(entries, i)
  {
    if entries == [] then None
    else if Fatal(entries[0]) then
      assert NoneFatalBefore(entries, 0);
      Some(entries[0].error)
    else
      var e := FirstFatal(entries[1..]);
      assert forall i :: 1 <= i < |entries| ==> entries[i] == entries[1..][i - 1];
      if e.Some? then
        var i :| 0 <= i < |entries[1..]| && entries[1..][i] == Failed(e.value) && NoneFatalBefore(entries[1..], i);
        assert NoneFatalBefore(entries, i + 1);
        e
      else
        e
  }

  /** No entry before position `i` is a failure that escapes. */
  predicate NoneFatalBefore(entries: seq<ProcRead>, i: nat)
    requires i <= |entries|
  {
    forall j :: 0 <= j < i ==> !Fatal(entries[j])
  }

  /** Reading a list in two parts reads each part in turn. */
  lemma {:induction false} ReadableAppend(a: seq<ProcRead>, b: seq<ProcRead>)
    ensures Readable(a + b) == Readable(a) + Readable(b)
    decreases |b|
  {
    if b != [] {
      var init, last := b[..|b| - 1], b[|b| - 1];
      assert (a + b)[..|a + b| - 1] == a + init;
      assert (a + b)[|a + b| - 1] == last;
      ReadableAppend(a, init);
    } else {
      assert a + b == a;
    }
  }

  /** One entry: its process when it was read, nothing when reading it failed. */
  lemma ReadableOfOne(r: ProcRead)
    ensures Readable([r]) == if r.Read? then [r.info] else []
  {
    assert [r][..0] == [];
  }

  /** `a` comes strictly before `b`: its (cpu, memory) pair is lexicographically greater. */
  predicate Above(a: ProcInfo, b: ProcInfo) {
    a.cpuPercent > b.cpuPercent || (a.cpuPercent == b.cpuPercent && a.memoryPercent > b.memoryPercent)
  }

  /** `a` and `b` have the same sort key. */
  predicate SameKey(a: ProcInfo, b: ProcInfo) {
    a.cpuPercent == b.cpuPercent && a.memoryPercent == b.memoryPercent
  }

  /** No later entry has a greater (cpu, memory) pair than an earlier one. */
  predicate Descending(s: seq<ProcInfo>) {
    forall i, j :: 0 <= i < j < |s| ==> !Above(s[j], s[i])
  }

  /**
   * Puts `x` in front of the first entry of `ys` whose key is not greater
   * than its own, so that it precedes the entries with an equal key.
   */
  function Insert(x: ProcInfo, ys: seq<ProcInfo>): (r: seq<ProcInfo>)
    ensures multiset(r) == multiset(ys) + multiset{x}
    ensures forall q :: q in r <==> q == x || q in ys
  {
    if ys != [] && Above(ys[0], x) then
      assert ys == [ys[0]] + ys[1..];
      [ys[0]] + Insert(x, ys[1..])
    else
      [x] + ys
  }

  /** A descending list stays descending under a head no entry of it is above. */
  lemma DescendingCons(h: ProcInfo, t: seq<ProcInfo>)
    requires Descending(t)
    requires forall q :: q in t ==> !Above(q, h)
    ensures Descending([h] + t)
  {
    var r := [h] + t;
    forall i, j | 0 <= i < j < |r|
      ensures !Above(r[j], r[i])
    {
      assert r[j] == t[j - 1];
      if i > 0 {
        assert r[i] == t[i - 1];
      } else {
        assert r[j] in t;
      }
    }
  }

  /** No entry of a descending list is above its head. */
  lemma HeadIsTop(ys: seq<ProcInfo>)
    requires Descending(ys) && ys != []
    ensures forall q :: q in ys ==> !Above(q, ys[0])
  {
    forall q | q in ys
      ensures !Above(q, ys[0])
    {
      var j :| 0 <= j < |ys| && ys[j] == q;
      if j > 0 {
        assert !Above(ys[j], ys[0]);
      }
    }
  }

  /** Inserting into a descending list keeps it descending. */
  lemma {:induction false} InsertKeepsDescending(x: ProcInfo, ys: seq<ProcInfo>)
    requires Descending(ys)
    ensures Descending(Insert(x, ys))
    decreases |ys|
  {
    if ys != [] && Above(ys[0], x) {
      var rest := Insert(x, ys[1..]);
      assert Descending(ys[1..]) by {
        forall i, j | 0 <= i < j < |ys[1..]|
          ensures !Above(ys[1..][j], ys[1..][i])
        {
          assert ys[1..][j] == ys[j + 1] && ys[1..][i] == ys[i + 1];
        }
      }
      InsertKeepsDescending(x, ys[1..]);
      HeadIsTop(ys);
      assert forall q :: q in ys[1..] ==> q in ys;
      DescendingCons(ys[0], rest);
      assert Insert(x, ys) == [ys[0]] + rest;
    } else {
      if ys != [] {
        HeadIsTop(ys);
      }
      DescendingCons(x, ys);
    }
  }

  /**
   * Python's `sorted(procs, key=(cpu, memory), reverse=True)`: the same
   * entries, highest key first.
   */
  function Sort(s: seq<ProcInfo>): (r: seq<ProcInfo>)
    ensures multiset(r) == multiset(s)
    ensures Descending(r)
  {
    if s == [] then []
    else
      assert s == [s[0]] + s[1..];
      var rest := Sort(s[1..]);
      InsertKeepsDescending(s[0], rest);
      Insert(s[0], rest)
  }

  /** The entries of `s` whose key equals that of `k`, in order. */
  function WithKeyOf(s: seq<ProcInfo>, k: ProcInfo): seq<ProcInfo> {
    if s == [] then []
    else (if SameKey(s[0], k) then [s[0]] else []) + WithKeyOf(s[1..], k)
  }

  lemma WithKeyOfCons(h: ProcInfo, t: seq<ProcInfo>, k: ProcInfo)
    ensures WithKeyOf([h] + t, k) == (if SameKey(h, k) then [h] else []) + WithKeyOf(t, k)
  {
    assert ([h] + t)[1..] == t;
  }

  /** Moving `x` past a head `h` with a greater key leaves the entries of each key in order. */
  lemma PassHead(h: ProcInfo, x: ProcInfo, rest: seq<ProcInfo>, t: seq<ProcInfo>, k: ProcInfo)
    requires Above(h, x)
    requires WithKeyOf(rest, k) == (if SameKey(x, k) then [x] else []) + WithKeyOf(t, k)
    ensures WithKeyOf([h] + rest, k) == (if SameKey(x, k) then [x] else []) + WithKeyOf([h] + t, k)
  {
    WithKeyOfCons(h, rest, k);
    WithKeyOfCons(h, t, k);
    if SameKey(x, k) {
      assert !SameKey(h, k);
    }
  }

  lemma {:induction false} InsertWithKeyOf(x: ProcInfo, ys: seq<ProcInfo>, k: ProcInfo)
    ensures WithKeyOf(Insert(x, ys), k) == (if SameKey(x, k) then [x] else []) + WithKeyOf(ys, k)
    decreases |ys|
  {
    if ys != [] && Above(ys[0], x) {
      InsertWithKeyOf(x, ys[1..], k);
      PassHead(ys[0], x, Insert(x, ys[1..]), ys[1..], k);
      assert ys == [ys[0]] + ys[1..];
    } else {
      WithKeyOfCons(x, ys, k);
    }
  }

  /** The sort is stable: entries with equal keys keep their enumeration order. */
  lemma {:induction false} SortIsStable(s: seq<ProcInfo>, k: ProcInfo)
    ensures WithKeyOf(Sort(s), k) == WithKeyOf(s, k)
    decreases |s|
  {
    if s != [] {
      InsertWithKeyOf(s[0], Sort(s[1..]), k);
      SortIsStable(s[1..], k);
    }
  }

  /** The entries of one key in a prefix come first among that key's entries in the whole list. */
  lemma {:induction false} WithKeyOfPrefix(s: seq<ProcInfo>, m: nat, k: ProcInfo)
    requires m <= |s|
    ensures WithKeyOf(s[..m], k) <= WithKeyOf(s, k)
    decreases m
  {
    if m > 0 {
      WithKeyOfPrefix(s[1..], m - 1, k);
      assert s[..m] == [s[0]] + s[1..][..m - 1];
      WithKeyOfCons(s[0], s[1..][..m - 1], k);
    }
  }

  /** For every key, the entries of `top` with that key are the first ones of `s` with it, in order. */
  ghost predicate TiesInOrder(top: seq<ProcInfo>, s: seq<ProcInfo>) {
    forall k :: WithKeyOf(top, k) <= WithKeyOf(s, k)
  }

  /** Python's `s[:n]`; a negative `n` counts from the end. */
  function Take<T>(s: seq<T>, n: int): (r: seq<T>)
    ensures |r| == if n >= 0 then (if n < |s| then n else |s|) else (if |s| + n > 0 then |s| + n else 0)
    ensures r == s[..|r|]
  {
    if n >= 0 then (if n < |s| then s[..n] else s)
    else (if |s| + n > 0 then s[..|s| + n] else [])
  }

  /** A prefix of a descending list is descending and drawn from it. */
  lemma PrefixDescending(s: seq<ProcInfo>, m: nat)
    requires Descending(s) && m <= |s|
    ensures Descending(s[..m])
    ensures multiset(s[..m]) <= multiset(s)
    ensures forall p :: p in s[..m] ==> p in s
  {
    assert s == s[..m] + s[m..];
    assert multiset(s) == multiset(s[..m]) + multiset(s[m..]);
  }

  /** No entry after a prefix of a descending list is above one in the prefix. */
  lemma PrefixHoldsLargest(s: seq<ProcInfo>, m: nat)
    requires Descending(s) && m <= |s|
    ensures forall q, p :: q in multiset(s) - multiset(s[..m]) && p in s[..m] ==> !Above(q, p)
  {
    assert s == s[..m] + s[m..];
    assert multiset(s) - multiset(s[..m]) == multiset(s[m..]);
    forall q, p | q in multiset(s[m..]) && p in s[..m]
      ensures !Above(q, p)
    {
      var j :| 0 <= j < |s[m..]| && s[m..][j] == q;
      var i :| 0 <= i < m && s[..m][i] == p;
      assert s[i] == p && s[m + j] == q;
    }
  }

  /**
   * What `Take(Sort(Readable(entries)), n)` holds: descending, `n` entries
   * when there are enough, only readable ones, and no readable entry left
   * out is above one kept.
   */
  lemma TopOfSorted(entries: seq<ProcRead>, n: int)
    ensures var procs := Readable(entries); var top := Take(Sort(procs), n);
      && Descending(top)
      && (n >= 0 ==> |top| == if n < |procs| then n else |procs|)
      && (forall p :: p in top ==> Read(p) in entries)
      && multiset(top) <= multiset(procs)
      && (forall q, p :: q in multiset(procs) - multiset(top) && p in top ==> !Above(q, p))
  {
    var procs := Readable(entries);
    var sorted := Sort(procs);
    var m := |Take(sorted, n)|;
    PrefixDescending(sorted, m);
    PrefixHoldsLargest(sorted, m);
    forall p | p in sorted
      ensures p in procs
    {
      assert p in multiset(sorted);
    }
  }

  /**
   * Ties among the kept processes are broken by enumeration order: the kept
   * processes with the key of `k` are the first ones of that key that were
   * read, in the order they were read.
   */
  lemma TopKeepsReadOrder(entries: seq<ProcRead>, n: int, k: ProcInfo)
    ensures WithKeyOf(Take(Sort(Readable(entries)), n), k) <= WithKeyOf(Readable(entries), k)
  {
    var sorted := Sort(Readable(entries));
    WithKeyOfPrefix(sorted, |Take(sorted, n)|, k);
    SortIsStable(Readable(entries), k);
  }

  /** One more entry read: the readable list grows by it when it was read. */
  lemma ReadableStep(entries: seq<ProcRead>, i: nat)
    requires i < |entries|
    ensures Readable(entries[..i + 1]) == Readable(entries[..i]) + (if entries[i].Read? then [entries[i].info] else [])
  {
    assert entries[..i + 1][..i] == entries[..i];
  }

  /** The first escaping failure from entry `i` on is entry `i`'s own, or comes later. */
  lemma FirstFatalStep(entries: seq<ProcRead>, i: nat)
    requires i < |entries|
    ensures FirstFatal(entries[i..]) == if Fatal(entries[i]) then Some(entries[i].error) else FirstFatal(entries[i + 1..])
  {
    assert entries[i..][1..] == entries[i + 1..];
  }

  /**
   * The top `n` processes of one enumeration, or the exception that
   * escaped it.
   */
  method GetTopProcesses(entries: seq<ProcRead>, n: int) returns (r: Result<seq<ProcInfo>, ReadError>)
    ensures r.Err? <==> FirstFatal(entries).Some?
    ensures r.Err? ==> FirstFatal(entries) == Some(r.error)
    ensures r.Ok? ==> r.value == Take(Sort(Readable(entries)), n)
    ensures r.Ok? ==> Descending(r.value)
    ensures r.Ok? && n >= 0 ==> |r.value| == if n < |Readable(entries)| then n else |Readable(entries)|
    ensures r.Ok? ==> forall p :: p in r.value ==> Read(p) in entries
    ensures r.Ok? ==> multiset(r.value) <= multiset(Readable(entries))
    ensures r.Ok? ==> forall q, p :: q in multiset(Readable(entries)) - multiset(r.value) && p in r.value ==> !Above(q, p)
    ensures r.Ok? ==> TiesInOrder(r.value, Readable(entries))
  {
    var procs: seq<ProcInfo> := [];
    var i := 0;
    while i < |entries|
      invariant 0 <= i <= |entries|
      invariant procs == Readable(entries[..i])
      invariant FirstFatal(entries) == FirstFatal(entries[i..])
    {
      ReadableStep(entries, i);
      FirstFatalStep(entries, i);
      if entries[i].Read? {
        procs := procs + [entries[i].info];
      } else if !Skippable(entries[i].error) {
        return Err(entries[i].error);
      }
      i := i + 1;
    }
    assert entries[..i] == entries;
    TopOfSorted(entries, n);
    forall k {
      TopKeepsReadOrder(entries, n, k);
    }
    r := Ok(Take(Sort(procs), n));
  }
}
