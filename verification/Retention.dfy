/** The two bounded logs: the agent event log of src/gpuopt/agent_protocol.py, which appends and reslices, and the
    audit log of src/gpuopt/audit.py, which appends and pops the front. */
module Retention {
  import opened Arith
  import opened Seqs

  /** The last `min(|s|, limit)` entries. */
  function LastN<T>(s: seq<T>, limit: nat): seq<T> { if |s| <= limit then s else s[|s| - limit..] }

  /** Python's `s[lo:hi]`: negative bounds count from the end, all bounds are clipped. */
  function Slice<T>(s: seq<T>, lo: int, hi: int): seq<T> {
    var (a, b) := (Clip(lo, |s|), Clip(hi, |s|));
    if a < b then s[a..b] else []
  }

  function Clip(i: int, n: nat): (r: nat)
    ensures r <= n
  {
    if i < 0 then Max(0, n + i) else Min(i, n)
  }

  /** `s[-limit:]`. For limit zero the lower bound is -0, so nothing is cut. */
  function Tail<T>(s: seq<T>, limit: int): seq<T> { Slice(s, -limit, |s|) }

  /** Bounds inside the list cut there, and negative ones count from the end. */
  lemma SliceIs<T>(s: seq<T>, lo: nat, hi: nat)
    requires lo <= hi <= |s|
    ensures Slice(s, lo, hi) == s[lo..hi]
    ensures hi < |s| ==> Slice(s, lo - |s|, hi - |s|) == s[lo..hi]
    ensures Slice(s, hi, lo) == []
  {
    assert lo == hi ==> s[lo..hi] == [];
  }

  /** Bounds outside the list cut at its ends. */
  lemma SliceClips<T>(s: seq<T>, out: nat)
    ensures Slice(s, -|s| - out, |s| + out) == s
    ensures Slice(s, |s| + out, |s| + out) == [] == Slice(s, -|s| - out, -|s| - out)
  {
  }

  /** Append, then reslice if over the limit. */
  function AppendReslice<T>(s: seq<T>, x: T, limit: int): seq<T> {
    if |s + [x]| > limit then Tail(s + [x], limit) else s + [x]
  }

  /** Append, then pop one entry from the front if over the limit. */
  function AppendPop<T>(s: seq<T>, x: T, limit: int): seq<T> {
    if |s + [x]| > limit then (s + [x])[1..] else s + [x]
  }

  function Reslicing<T>(history: seq<T>, limit: int): seq<T> {
    if history == [] then []
    else AppendReslice(Reslicing(history[..|history| - 1], limit), history[|history| - 1], limit)
  }

  function Popping<T>(history: seq<T>, limit: int): seq<T> {
    if history == [] then []
    else AppendPop(Popping(history[..|history| - 1], limit), history[|history| - 1], limit)
  }

  lemma ResliceStep<T>(history: seq<T>, x: T, limit: nat)
    requires limit >= 1
    ensures AppendReslice(LastN(history, limit), x, limit) == LastN(history + [x], limit)
  {
  }

  lemma PopStep<T>(history: seq<T>, x: T, limit: int)
    ensures AppendPop(LastN(history, Max(limit, 0)), x, limit) == LastN(history + [x], Max(limit, 0))
  {
  }

  /** Over any whole history both logs hold the last `limit` entries. */
  lemma {:induction false} BothRefineLastN<T>(history: seq<T>, limit: nat)
    requires limit >= 1
    ensures Reslicing(history, limit) == LastN(history, limit) == Popping(history, limit)
  {
    if history != [] {
      var (front, x) := (history[..|history| - 1], history[|history| - 1]);
      assert history == front + [x];
      BothRefineLastN(front, limit);
      ResliceStep(front, x, limit);
      PopStep(front, x, limit);
    }
  }

  /** With limit zero the two differ: the reslicing log never drops anything, the popping log keeps nothing. */
  lemma {:induction false} LimitZero<T>(history: seq<T>)
    ensures Reslicing(history, 0) == history && Popping(history, 0) == []
  {
    if history != [] {
      var (front, x) := (history[..|history| - 1], history[|history| - 1]);
      assert history == front + [x];
      LimitZero(front);
    }
  }

  /** The reslicing log holds the last `limit` entries exactly when the limit is positive or nothing was recorded; the
      popping log always does. */
  lemma ReslicingIff<T>(history: seq<T>, limit: nat)
    ensures Reslicing(history, limit) == LastN(history, limit) <==> limit >= 1 || history == []
    ensures Popping(history, limit) == LastN(history, limit)
  {
    if limit >= 1 {
      BothRefineLastN(history, limit);
    } else {
      LimitZero(history);
    }
  }

  /** A limited listing returns the last entries exactly when the limit is positive or nothing was to be cut. */
  lemma TailIff<T>(s: seq<T>, limit: nat)
    ensures Tail(s, limit) == LastN(s, limit) <==> limit >= 1 || s == []
  {
  }

  // ---- paging ----

  /** `list(limit, offset)` of the audit store. */
  function Page<T>(s: seq<T>, limit: int, offset: int): seq<T> { Slice(s, offset, offset + limit) }

  function Pages<T>(s: seq<T>, limit: nat, count: nat): seq<T> {
    if count == 0 then [] else Pages(s, limit, count - 1) + Page(s, limit, (count - 1) * limit)
  }

  lemma PageExtends<T>(s: seq<T>, limit: nat, offset: nat)
    ensures s[..Min(offset, |s|)] + Page(s, limit, offset) == s[..Min(offset + limit, |s|)]
  {
  }

  /** Consecutive pages, put together, are a prefix of the log: every entry once and in order, nothing else. */
  lemma {:induction false} PagesCover<T>(s: seq<T>, limit: nat, count: nat)
    ensures count * limit >= 0 && Pages(s, limit, count) == s[..Min(count * limit, |s|)]
  {
    if count > 0 {
      PagesCover(s, limit, count - 1);
      assert count * limit == (count - 1) * limit + limit;
      PageExtends(s, limit, (count - 1) * limit);
    } else {
      assert 0 * limit == 0;
    }
  }

  /** As many pages as there are entries cover the whole log. */
  lemma AllPages<T>(s: seq<T>, limit: nat)
    requires limit >= 1
    ensures Pages(s, limit, |s|) == s
  {
    PagesCover(s, limit, |s|);
    IntMulMono(|s|, 1, limit);
    assert s[..|s|] == s;
  }

  class AuditStore<T> {
    var entries: seq<T>
    const maxEntries: int
    /** Everything added since the last clear. */
    ghost var history: seq<T>

    ghost predicate Valid()
      reads this
    {
      entries == LastN(history, Max(maxEntries, 0))
    }

    constructor (maxEntries: int)
      ensures Valid() && history == [] && this.maxEntries == maxEntries
    {
      this.entries, this.maxEntries, this.history := [], maxEntries, [];
    }

    method Add(entry: T)
      requires Valid()
      modifies this
      ensures Valid() && history == old(history) + [entry]
    {
      PopStep(history, entry, maxEntries);
      entries := entries + [entry];
      if |entries| > maxEntries {
        entries := entries[1..];
      }
      history := history + [entry];
    }

    function List(limit: int, offset: int): seq<T>
      reads this
    {
      Page(entries, limit, offset)
    }

    method Clear()
      modifies this
      ensures Valid() && history == []
    {
      entries, history := [], [];
    }
  }
}
