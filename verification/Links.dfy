/** Linked lists threaded through arrays: a link is an index, NIL ends a list. */
module Links {
  import opened Storage

  ghost predicate InRange(s: seq<int>, n: nat) {
    forall p :: 0 <= p < |s| ==> 0 <= s[p] < n
  }

  /** The element after position `p`, NIL after the last. */
  function At(s: seq<int>, p: int): int {
    if 0 <= p < |s| then s[p] else NIL
  }

  /** Following `link` from `head` visits exactly `s`. */
  ghost predicate Chain(link: seq<int>, head: int, s: seq<int>) {
    && InRange(s, |link|)
    && head == At(s, 0)
    && forall p :: 0 <= p < |s| ==> link[s[p]] == At(s, p + 1)
  }

  /** A doubly linked list from `front` to `rear`. */
  ghost predicate Dll(next: seq<int>, prev: seq<int>, front: int, rear: int, s: seq<int>) {
    && |prev| == |next| && NoDup(s)
    && Chain(next, front, s)
    && rear == At(s, |s| - 1)
    && forall p :: 0 <= p < |s| ==> prev[s[p]] == At(s, p - 1)
  }

  function Without(s: seq<int>, p: nat): (r: seq<int>)
    requires p < |s|
    ensures |r| == |s| - 1
    ensures forall q :: 0 <= q < |r| ==> r[q] == s[if q < p then q else q + 1]
  {
    s[..p] + s[p + 1..]
  }

  lemma WithoutNoDup(s: seq<int>, p: nat)
    requires p < |s| && NoDup(s)
    ensures NoDup(Without(s, p))
    ensures forall x :: x in Without(s, p) <==> x in s && x != s[p]
  {
    var r := Without(s, p);
    forall x | x in s && x != s[p] ensures x in r {
      var q :| 0 <= q < |s| && s[q] == x;
      assert r[if q < p then q else q - 1] == x;
    }
  }

  /** rm_lru: the neighbours of an element are joined. */
  lemma DllRemove(next: seq<int>, prev: seq<int>, front: int, rear: int, s: seq<int>, p: nat,
                  next': seq<int>, prev': seq<int>, front': int, rear': int)
    requires Dll(next, prev, front, rear, s) && p < |s|
    requires next' == (if p > 0 then next[s[p - 1] := next[s[p]]] else next)
    requires prev' == (if p + 1 < |s| then prev[s[p + 1] := prev[s[p]]] else prev)
    requires front' == (if p > 0 then front else next[s[p]])
    requires rear' == (if p + 1 < |s| then rear else prev[s[p]])
    ensures Dll(next', prev', front', rear', Without(s, p))
  {
    hide At, NoDup, InRange, Without;
    var r := Without(s, p);
    WithoutStill(s, p, |next|);
    RangeAt(s, |next|, p);
    if p > 0 { RangeAt(s, |next|, p - 1); }
    if p + 1 < |s| { RangeAt(s, |next|, p + 1); }
    assert |next'| == |prev'| == |next|;
    forall q | 0 <= q < |r| ensures 0 <= r[q] < |next| && next'[r[q]] == At(r, q + 1) && prev'[r[q]] == At(r, q - 1) {
      var q' := if q < p then q else q + 1;
      RangeAt(r, |next|, q);
      NextAt(next, next', s, p, q, q');
      PrevAt(prev, prev', s, p, q, q');
    }
    EndsAt(next, prev, s, p);
  }

  lemma RangeAt(s: seq<int>, n: nat, p: nat)
    requires InRange(s, n) && p < |s|
    ensures 0 <= s[p] < n
  {}

  lemma WithoutStill(s: seq<int>, p: nat, n: nat)
    requires p < |s| && NoDup(s) && InRange(s, n)
    ensures NoDup(Without(s, p)) && InRange(Without(s, p), n)
  {}

  /** The link of entry `q` once entry `p` has been bridged; `q'` is where it was. */
  lemma NextAt(next: seq<int>, next': seq<int>, s: seq<int>, p: nat, q: nat, q': nat)
    requires InRange(s, |next|) && NoDup(s) && p < |s| && q < |s| - 1 && q' == (if q < p then q else q + 1)
    requires next[s[p]] == At(s, p + 1) && next[s[q']] == At(s, q' + 1)
    requires next' == (if p > 0 then next[s[p - 1] := next[s[p]]] else next)
    ensures |next'| == |next| && next'[Without(s, p)[q]] == At(Without(s, p), q + 1)
  {
    assert p > 0 && q' != p - 1 ==> s[q'] != s[p - 1];
  }

  lemma PrevAt(prev: seq<int>, prev': seq<int>, s: seq<int>, p: nat, q: nat, q': nat)
    requires InRange(s, |prev|) && NoDup(s) && p < |s| && q < |s| - 1 && q' == (if q < p then q else q + 1)
    requires prev[s[p]] == At(s, p - 1) && prev[s[q']] == At(s, q' - 1)
    requires prev' == (if p + 1 < |s| then prev[s[p + 1] := prev[s[p]]] else prev)
    ensures |prev'| == |prev| && prev'[Without(s, p)[q]] == At(Without(s, p), q - 1)
  {
    assert p + 1 < |s| && q' != p + 1 ==> s[q'] != s[p + 1];
  }

  lemma EndsAt(next: seq<int>, prev: seq<int>, s: seq<int>, p: nat)
    requires InRange(s, |next|) && |prev| == |next| && p < |s| && next[s[p]] == At(s, p + 1) && prev[s[p]] == At(s, p - 1)
    ensures var r := Without(s, p);
      && At(r, 0) == (if p > 0 then At(s, 0) else next[s[p]])
      && At(r, |r| - 1) == (if p + 1 < |s| then At(s, |s| - 1) else prev[s[p]])
  {}

  lemma DllPushFront(next: seq<int>, prev: seq<int>, front: int, rear: int, s: seq<int>, x: int,
                     next': seq<int>, prev': seq<int>, rear': int)
    requires Dll(next, prev, front, rear, s) && 0 <= x < |next| && x !in s
    requires next' == next[x := front]
    requires prev' == (if s == [] then prev[x := NIL] else prev[x := NIL][s[0] := x])
    requires rear' == (if s == [] then x else rear)
    ensures Dll(next', prev', x, rear', [x] + s)
  {
    var r := [x] + s;
    forall q | 0 <= q < |r| ensures next'[r[q]] == At(r, q + 1) && prev'[r[q]] == At(r, q - 1) {
      if q > 0 { assert r[q] == s[q - 1]; if q > 1 { assert s[q - 1] != s[0]; } }
    }
  }

  lemma DllPushRear(next: seq<int>, prev: seq<int>, front: int, rear: int, s: seq<int>, x: int,
                    next': seq<int>, prev': seq<int>, front': int)
    requires Dll(next, prev, front, rear, s) && 0 <= x < |next| && x !in s
    requires prev' == prev[x := rear]
    requires next' == (if s == [] then next[x := NIL] else next[x := NIL][s[|s| - 1] := x])
    requires front' == (if s == [] then x else front)
    ensures Dll(next', prev', front', x, s + [x])
  {
    var r := s + [x];
    forall q | 0 <= q < |r| ensures next'[r[q]] == At(r, q + 1) && prev'[r[q]] == At(r, q - 1) {
      if q < |s| { assert r[q] == s[q]; if q < |s| - 1 { assert s[q] != s[|s| - 1]; } }
    }
  }

  lemma ChainRemove(link: seq<int>, head: int, s: seq<int>, p: nat, link': seq<int>, head': int)
    requires Chain(link, head, s) && NoDup(s) && p < |s|
    requires link' == (if p > 0 then link[s[p - 1] := link[s[p]]] else link)
    requires head' == (if p > 0 then head else link[s[p]])
    ensures Chain(link', head', Without(s, p))
  {
    hide At, NoDup, InRange, Without;
    var r := Without(s, p);
    WithoutStill(s, p, |link|);
    RangeAt(s, |link|, p);
    if p > 0 { RangeAt(s, |link|, p - 1); }
    assert |link'| == |link|;
    forall q | 0 <= q < |r| ensures 0 <= r[q] < |link| && link'[r[q]] == At(r, q + 1) {
      RangeAt(r, |link|, q);
      NextAt(link, link', s, p, q, if q < p then q else q + 1);
    }
    FirstAt(link, s, p);
  }

  lemma FirstAt(link: seq<int>, s: seq<int>, p: nat)
    requires InRange(s, |link|) && p < |s| && link[s[p]] == At(s, p + 1)
    ensures At(Without(s, p), 0) == (if p > 0 then At(s, 0) else link[s[p]])
  {}

  /** A list does not notice links that are not its own. */
  lemma ChainFrame(link: seq<int>, head: int, s: seq<int>, link': seq<int>)
    requires Chain(link, head, s) && |link'| == |link|
    requires forall p :: 0 <= p < |s| ==> link'[s[p]] == link[s[p]]
    ensures Chain(link', head, s)
  {
  }
}
