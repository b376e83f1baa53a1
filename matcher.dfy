/** The subsequence matcher behind the suggestion list: does every character of
    a query occur, in order, at strictly increasing positions of a candidate
    name? An empty query matches nothing. */
module Matcher {

  /** `idx` places the elements of `sub` into `full`: one position per element,
      each holding that element, and strictly increasing. */
  ghost predicate Embeds<T>(sub: seq<T>, full: seq<T>, idx: seq<int>) {
    && |idx| == |sub|
    && (forall k :: 0 <= k < |idx| ==> 0 <= idx[k] < |full| && full[idx[k]] == sub[k])
    && (forall k :: 0 < k < |idx| ==> idx[k - 1] < idx[k])
  }

  /** The declarative statement: `sub` is an ordered, not necessarily
      contiguous, subsequence of `full`. */
  ghost predicate IsSubsequence<T>(sub: seq<T>, full: seq<T>) {
    exists idx :: Embeds(sub, full, idx)
  }

  /** What the launcher calls a match: a non-empty query that is a
      subsequence of the candidate. */
  ghost predicate Matches(query: string, candidate: string) {
    query != [] && IsSubsequence(query, candidate)
  }

  /** `full.find(c, start)` for a one-character needle: the lowest index at or
      after `start` that holds `c`, or -1 when there is none. */
  function Find(full: string, c: char, start: nat): (r: int)
    decreases |full| - start
    ensures r == -1 || (start <= r < |full| && full[r] == c)
    ensures r == -1 <==> forall j :: start <= j < |full| ==> full[j] != c
    ensures forall j :: start <= j < |full| && j < r ==> full[j] != c
  {
    if start >= |full| then -1
    else if full[start] == c then start
    else Find(full, c, start + 1)
  }

  /** An embedding of `sub` restricts to an embedding of each prefix of `sub`. */
  lemma EmbedsPrefix<T>(sub: seq<T>, full: seq<T>, idx: seq<int>, n: nat)
    requires Embeds(sub, full, idx) && n <= |sub|
    ensures Embeds(sub[..n], full, idx[..n])
  {
  }

  /** An embedding into a prefix of `full` is an embedding into `full`. */
  lemma EmbedsWiden<T>(sub: seq<T>, full: seq<T>, idx: seq<int>, n: nat)
    requires n <= |full| && Embeds(sub, full[..n], idx)
    ensures Embeds(sub, full, idx)
  {
    forall k | 0 <= k < |idx| ensures 0 <= idx[k] < |full| && full[idx[k]] == sub[k] {
      assert full[..n][idx[k]] == full[idx[k]];
    }
  }

  /** An embedding into `full[..n]` extends by position `n` to an embedding
      of one more element. */
  lemma EmbedsSnoc<T>(sub: seq<T>, full: seq<T>, idx: seq<int>, n: nat)
    requires n < |full| && Embeds(sub, full[..n], idx)
    ensures Embeds(sub + [full[n]], full, idx + [n])
  {
    EmbedsWiden(sub, full, idx, n);
    var sub', idx' := sub + [full[n]], idx + [n];
    forall k | 0 <= k < |idx'| ensures 0 <= idx'[k] < |full| && full[idx'[k]] == sub'[k] {
      if k < |idx| {
        assert idx'[k] == idx[k] && sub'[k] == sub[k];
      }
    }
    forall k | 0 < k < |idx'| ensures idx'[k - 1] < idx'[k] {
      if k < |idx| {
        assert idx'[k - 1] == idx[k - 1] && idx'[k] == idx[k];
      } else {
        assert idx'[k - 1] == idx[k - 1] < |full[..n]|;
      }
    }
  }

  /** The greedy step: if `prev` is no later than the last position of any
      embedding of `sub[..k]`, the first hit of `sub[k]` after `prev` is no
      later than the next position of any embedding of `sub[..k + 1]`. */
  lemma GreedyStep(sub: string, full: string, k: nat, prev: int, pos: int)
    requires k < |sub| && -1 <= prev && (k == 0 <==> prev == -1)
    requires forall e :: Embeds(sub[..k], full, e) ==> k == 0 || prev <= e[k - 1]
    requires pos == Find(full, sub[k], prev + 1) && pos != -1
    ensures forall e :: Embeds(sub[..k + 1], full, e) ==> pos <= e[k]
  {
    forall e | Embeds(sub[..k + 1], full, e)
      ensures pos <= e[k]
    {
      EmbedsPrefix(sub[..k + 1], full, e, k);
      assert sub[..k + 1][..k] == sub[..k];
    }
  }

  /** `subseqmatch(sub, full)`: walks `sub` with a cursor `pos`, each time
      searching for the next character strictly after the previous hit. The
      cursor is always the greedy (earliest) position of the last character
      matched so far, so failing to find the next character means that no
      embedding exists at all. */
  method SubseqMatch(sub: string, full: string) returns (found: bool)
    ensures found <==> Matches(sub, full)
  {
    if sub == [] {
      return false;
    }
    var pos := -1;
    ghost var idx: seq<int> := [];
    for k := 0 to |sub|
      invariant -1 <= pos < |full|
      invariant Embeds(sub[..k], full, idx)
      invariant k == 0 <==> pos == -1
      invariant k > 0 ==> pos == idx[k - 1]
      invariant forall e :: Embeds(sub[..k], full, e) ==> k == 0 || pos <= e[k - 1]
    {
      ghost var prev := pos;
      pos := Find(full, sub[k], pos + 1);
      if pos == -1 {
        forall e | Embeds(sub, full, e)
          ensures false
        {
          EmbedsPrefix(sub, full, e, k);
        }
        return false;
      }
      GreedyStep(sub, full, k, prev, pos);
      idx := idx + [pos];
    }
    assert sub[..|sub|] == sub;
    return true;
  }

  /** A query never matches a shorter candidate; in particular nothing
      matches the empty candidate. */
  lemma MatchNoLongerThanCandidate(query: string, candidate: string)
    requires Matches(query, candidate)
    ensures |query| <= |candidate|
  {
    var idx :| Embeds(query, candidate, idx);
    EmbedsAtLeastIndex(query, candidate, idx, |query| - 1);
  }

  /** In an embedding the k-th position is at least k. */
  lemma {:induction false} EmbedsAtLeastIndex<T>(sub: seq<T>, full: seq<T>, idx: seq<int>, k: nat)
    requires Embeds(sub, full, idx) && k < |idx|
    ensures k <= idx[k]
  {
    if k > 0 {
      EmbedsAtLeastIndex(sub, full, idx, k - 1);
    }
  }

  /** A subsequence starts with an element that occurs in the full sequence. */
  lemma SubsequenceHead<T>(sub: seq<T>, full: seq<T>)
    requires sub != []
    ensures IsSubsequence(sub, full) ==> sub[0] in full
  {
    if IsSubsequence(sub, full) {
      var idx :| Embeds(sub, full, idx);
      assert full[idx[0]] == sub[0];
    }
  }

  /** Typing one more character can only narrow the match: a candidate that
      matches the longer query matches the shorter one, unless the shorter one
      is empty (which matches nothing). */
  lemma ExtendedQueryNarrows(query: string, c: char, candidate: string)
    requires query != [] && Matches(query + [c], candidate)
    ensures Matches(query, candidate)
  {
    var idx :| Embeds(query + [c], candidate, idx);
    EmbedsPrefix(query + [c], candidate, idx, |query|);
    assert (query + [c])[..|query|] == query;
  }
}
