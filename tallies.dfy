/** A JavaScript object used as a counting dictionary
    (`acc[k] = (acc[k] || 0) + 1`), kept as its entries in insertion order,
    and the `reduce` that picks the key with the largest count. */
module Tallies {
  import opened Seqs

  type Entries = seq<(string, nat)>

  function Keys(e: Entries): (r: seq<string>)
    ensures |r| == |e|
    ensures forall i :: 0 <= i < |e| ==> r[i] == e[i].0
  {
    if e == [] then [] else [e[0].0] + Keys(e[1..])
  }

  /** `acc[k] || 0`. */
  function CountOf(e: Entries, k: string): nat {
    if e == [] then 0 else if e[0].0 == k then e[0].1 else CountOf(e[1..], k)
  }

  /** The sum of all counts. */
  function Total(e: Entries): nat {
    if e == [] then 0 else e[0].1 + Total(e[1..])
  }

  /** `acc[k] = (acc[k] || 0) + 1`: the first entry for `k` is incremented,
      or a new entry is added at the end. */
  function Bump(e: Entries, k: string): (r: Entries)
    ensures Keys(r) == if k in Keys(e) then Keys(e) else Keys(e) + [k]
  {
    if e == [] then [(k, 1)]
    else
      assert Keys(e) == [e[0].0] + Keys(e[1..]);
      if e[0].0 == k then
        var r := [(k, e[0].1 + 1)] + e[1..];
        assert r[1..] == e[1..];
        r
      else
        var r := [e[0]] + Bump(e[1..], k);
        assert r[1..] == Bump(e[1..], k);
        r
  }

  /** Bumping `k` adds one to the count of `k` and to the total, and leaves
      every other count as it was. */
  lemma {:induction false} BumpCounts(e: Entries, k: string)
    ensures forall j :: CountOf(Bump(e, k), j) == CountOf(e, j) + (if j == k then 1 else 0)
    ensures Total(Bump(e, k)) == Total(e) + 1
  {
    if e != [] && e[0].0 != k {
      BumpCounts(e[1..], k);
      var r := Bump(e, k);
      assert r[0] == e[0] && r[1..] == Bump(e[1..], k);
    } else if e != [] {
      var r := Bump(e, k);
      assert r[1..] == e[1..];
    }
  }

  /** The counting `reduce` over `values`: one entry per distinct value, in
      the order of first occurrence. */
  function TallyOf(values: seq<string>): (r: Entries)
    ensures NoDuplicates(Keys(r))
    ensures Keys(r) == Dedup(values)
    ensures forall k :: CountOf(r, k) == multiset(values)[k]
    ensures Total(r) == |values|
  {
    if values == [] then []
    else
      var front, last := values[..|values| - 1], values[|values| - 1];
      assert values == front + [last];
      BumpCounts(TallyOf(front), last);
      Bump(TallyOf(front), last)
  }

  /** One more value bumps the tally of the values before it. */
  lemma TallyOfSnoc(front: seq<string>, x: string)
    ensures TallyOf(front + [x]) == Bump(TallyOf(front), x)
  {
    var values := front + [x];
    assert values[..|values| - 1] == front;
  }

  /** The tally of a prefix one longer bumps the shorter prefix's tally. */
  lemma TallyOfPrefix(values: seq<string>, i: nat)
    requires i < |values|
    ensures TallyOf(values[..i + 1]) == Bump(TallyOf(values[..i]), values[i])
  {
    assert values[..i + 1] == values[..i] + [values[i]];
    TallyOfSnoc(values[..i], values[i]);
  }

  /** `entries.reduce((a, b) => count(a) > count(b) ? a : b)` without an
      initial value: the accumulator survives only a strictly smaller count. */
  function Reduce(e: Entries): (string, nat)
    requires |e| > 0
  {
    if |e| == 1 then e[0]
    else
      var a, b := Reduce(e[..|e| - 1]), e[|e| - 1];
      if a.1 > b.1 then a else b
  }

  /** The key the reduce returns is one of the dictionary's keys. */
  lemma ReduceKeyIsKey(e: Entries)
    requires |e| > 0
    ensures Reduce(e).0 in Keys(e)
  {
    var i := ReduceIsLastMaximum(e);
    assert Keys(e)[i] == Reduce(e).0;
  }

  /** The reduce returns an entry with a maximal count, and no later entry
      has the same count: among tied maxima the last one wins. */
  lemma {:induction false} ReduceIsLastMaximum(e: Entries) returns (i: nat)
    requires |e| > 0
    ensures i < |e| && e[i] == Reduce(e)
    ensures forall j :: 0 <= j < |e| ==> e[j].1 <= Reduce(e).1
    ensures forall j :: i < j < |e| ==> e[j].1 < Reduce(e).1
  {
    if |e| == 1 {
      i := 0;
    } else {
      var front := e[..|e| - 1];
      var k := ReduceIsLastMaximum(front);
      if Reduce(front).1 > e[|e| - 1].1 {
        i := k;
      } else {
        i := |e| - 1;
      }
    }
  }

  /** With distinct keys, `acc[k]` reads the entry for `k`. */
  lemma {:induction false} CountOfEntry(e: Entries, i: nat)
    requires NoDuplicates(Keys(e)) && i < |e|
    ensures CountOf(e, e[i].0) == e[i].1
  {
    if i > 0 {
      assert Keys(e)[0] != Keys(e)[i];
      assert forall j :: 0 <= j < |e| - 1 ==> Keys(e[1..])[j] == Keys(e)[j + 1];
      CountOfEntry(e[1..], i - 1);
    }
  }

  /** The value the tally-then-reduce picks occurs most often in `values`,
      and every other value that occurs as often first occurs earlier. */
  lemma {:induction false} TallyWinner(values: seq<string>)
    requires |values| > 0
    ensures Reduce(TallyOf(values)).0 in values
    ensures Reduce(TallyOf(values)).1 == multiset(values)[Reduce(TallyOf(values)).0]
    ensures forall s :: multiset(values)[s] <= multiset(values)[Reduce(TallyOf(values)).0]
    ensures forall s :: s in values && s != Reduce(TallyOf(values)).0
                        && multiset(values)[s] == multiset(values)[Reduce(TallyOf(values)).0]
                        ==> IndexOf(values, s) < IndexOf(values, Reduce(TallyOf(values)).0)
  {
    var e := TallyOf(values);
    var i := ReduceIsLastMaximum(e);
    var d := e[i].0;
    assert d in Dedup(values) by { assert Keys(e)[i] == d; }
    CountOfEntry(e, i);
    forall s ensures multiset(values)[s] <= multiset(values)[d] {
      if s in values {
        var j := KeyPosition(values, s);
        CountOfEntry(e, j);
      }
    }
    forall s | s in values && s != d && multiset(values)[s] == multiset(values)[d]
      ensures IndexOf(values, s) < IndexOf(values, d)
    {
      var j := KeyPosition(values, s);
      CountOfEntry(e, j);
      assert j < i;
      DedupFirstOccurrenceOrder(values, j, i);
    }
  }

  /** Every value that occurs has an entry in the tally. */
  lemma KeyPosition(values: seq<string>, s: string) returns (j: nat)
    requires s in values
    ensures j < |TallyOf(values)| && TallyOf(values)[j].0 == s && Dedup(values)[j] == s
  {
    var e := TallyOf(values);
    assert s in Keys(e);
    j :| 0 <= j < |e| && Keys(e)[j] == s;
  }
}
