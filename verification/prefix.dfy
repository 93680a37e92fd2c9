/** The prefix filter behind both entry menus: `hasStart` and `remove_entries`
    (src/util.cpp), a case-sensitive, keep-if-starts-with filter that is stable and
    runs in place over the vector of results. */
module Prefix {
  import opened Base

  /** hasStart: whether `full` begins with `start`. */
  function HasStart(full: string, start: string): (r: bool)
    ensures r <==> start <= full
  {
    if |start| > |full| then false else full[..|start|] == start
  }

  /** The entries that begin with `query`, in their original order. */
  function Filter(entries: seq<string>, query: string): (r: seq<string>)
    ensures |r| <= |entries|
    ensures forall e | e in r :: query <= e && e in entries
  {
    if entries == [] then []
    else (if HasStart(entries[0], query) then [entries[0]] else []) + Filter(entries[1..], query)
  }

  /** `a` is `b` with some elements left out and the others in their order. */
  ghost predicate Subsequence<T>(a: seq<T>, b: seq<T>) {
    if a == [] then true
    else if b == [] then false
    else if a[0] == b[0] then Subsequence(a[1..], b[1..])
    else Subsequence(a, b[1..])
  }

  /** Filtering a concatenation filters each part. */
  lemma {:induction false} FilterAppend(a: seq<string>, b: seq<string>, query: string)
    ensures Filter(a + b, query) == Filter(a, query) + Filter(b, query)
  {
    if a != [] {
      assert (a + b)[0] == a[0];
      assert (a + b)[1..] == a[1..] + b;
      FilterAppend(a[1..], b, query);
    } else {
      assert a + b == b;
    }
  }

  /** The filter keeps a subsequence of the entries. */
  lemma {:induction false} FilterIsSubsequence(entries: seq<string>, query: string)
    ensures Subsequence(Filter(entries, query), entries)
  {
    if entries != [] {
      FilterIsSubsequence(entries[1..], query);
      var rest := Filter(entries[1..], query);
      if HasStart(entries[0], query) {
        assert Filter(entries, query)[1..] == rest;
      } else if rest != [] {
        assert Filter(entries, query) == rest;
        assert rest[0] in rest;
        assert rest[0] != entries[0];
      }
    }
  }

  /** The filter keeps every copy of every entry that begins with the query, and nothing else. */
  lemma {:induction false} FilterMultiplicity(entries: seq<string>, query: string, x: string)
    ensures multiset(Filter(entries, query))[x] == if query <= x then multiset(entries)[x] else 0
  {
    if entries != [] {
      FilterMultiplicity(entries[1..], query, x);
      assert entries == [entries[0]] + entries[1..];
      assert multiset(entries) == multiset([entries[0]]) + multiset(entries[1..]);
    }
  }

  /** The empty query keeps every entry. */
  lemma {:induction false} FilterEmptyQuery(entries: seq<string>)
    ensures Filter(entries, []) == entries
  {
    if entries != [] {
      FilterEmptyQuery(entries[1..]);
    }
  }

  /** Filtering by a query and then by a longer query that extends it is the same as
      filtering by the longer query alone. */
  lemma {:induction false} FilterNarrows(entries: seq<string>, q1: string, q2: string)
    requires q1 <= q2
    ensures Filter(Filter(entries, q1), q2) == Filter(entries, q2)
  {
    if entries != [] {
      var head := if HasStart(entries[0], q1) then [entries[0]] else [];
      FilterAppend(head, Filter(entries[1..], q1), q2);
      FilterNarrows(entries[1..], q1, q2);
      if q2 <= entries[0] {
        assert q1 <= entries[0];
      }
    }
  }

  /** Re-applying the filter with the same query changes nothing. */
  lemma FilterIdempotent(entries: seq<string>, query: string)
    ensures Filter(Filter(entries, query), query) == Filter(entries, query)
  {
    FilterNarrows(entries, query, query);
  }

  /** Nothing is left exactly when no entry begins with the query. */
  lemma {:induction false} FilterEmptyIff(entries: seq<string>, query: string)
    ensures Filter(entries, query) == [] <==> forall e | e in entries :: !(query <= e)
  {
    if entries != [] {
      FilterEmptyIff(entries[1..], query);
      if Filter(entries, query) == [] {
        forall e | e in entries ensures !(query <= e) {
          if e != entries[0] {
            assert e in entries[1..];
          }
        }
      } else {
        var e := Filter(entries, query)[0];
        assert e in Filter(entries, query);
      }
    }
  }

  /** Filtering one more entry of a prefix adds that entry when it begins with the query. */
  lemma FilterPrefixStep(results: seq<string>, r: nat, query: string)
    requires r < |results|
    ensures Filter(results[..r + 1], query) ==
      Filter(results[..r], query) + if HasStart(results[r], query) then [results[r]] else []
  {
    assert results[..r + 1] == results[..r] + [results[r]];
    FilterAppend(results[..r], [results[r]], query);
  }

  /** remove_entries: keeps, in place and in order, the results that begin with the query,
      and drops the rest (std::remove_if then erase). It returns the new size minus one, or
      npos (None) when nothing is left. The vector is the array `buf`, erased down to `size`. */
  method RemoveEntries(results: seq<string>, query: string) returns (kept: seq<string>, last: Option<nat>)
    ensures kept == Filter(results, query)
    ensures last.None? <==> kept == []
    ensures last.Some? ==> last.value == |kept| - 1
  {
    var buf := new string[|results|](i => if 0 <= i < |results| then results[i] else "");
    assert buf[..] == results;
    var w, r := 0, 0;
    while r < buf.Length
      invariant 0 <= w <= r <= buf.Length
      invariant buf[..w] == Filter(results[..r], query)
      invariant forall j | r <= j < buf.Length :: buf[j] == results[j]
    {
      ghost var done := buf[..w];
      FilterPrefixStep(results, r, query);
      var x := buf[r];
      if HasStart(x, query) {
        buf[w] := x;
        assert forall j | 0 <= j < w :: buf[j] == done[j];
        assert buf[..w + 1] == done + [x];
        w := w + 1;
      }
      r := r + 1;
    }
    assert results[..r] == results;
    kept := buf[..w];
    last := if w == 0 then None else Some(w - 1);
  }
}
