/** The key-value store the queues run on, as the phpredis client presents it.
    Only the commands the queues issue are modelled. A command addressed to a
    key that holds a value of the other kind gets an error reply, which the
    client returns as `false`: a push then reports 0, a pop or a score lookup
    finds nothing, a length or cardinality reads as 0. A list or sorted set that
    becomes empty disappears with its key. */
module Redis {
  import opened Mq

  datatype Value = ListValue(items: seq<Bin>) | ZSetValue(scores: map<Bin, int>)

  /** The whole keyspace. List index 0 is the left end (the one lPush grows). */
  type Data = map<Bin, Value>

  /** The keyspace after a command, and the command's reply. */
  datatype Reply<T> = Reply(data: Data, value: T)

  /** Upper end of a score range: `+inf` or an inclusive maximum. */
  datatype Bound = Unbounded | AtMost(max: int)

  function ListAt(d: Data, k: Bin): seq<Bin> {
    if k in d && d[k].ListValue? then d[k].items else []
  }

  function ZSetAt(d: Data, k: Bin): map<Bin, int> {
    if k in d && d[k].ZSetValue? then d[k].scores else map[]
  }

  /** A list command on `k` is not refused with a type error. */
  predicate TakesList(d: Data, k: Bin) {
    k !in d || d[k].ListValue?
  }

  /** A sorted-set command on `k` is not refused with a type error. */
  predicate TakesZSet(d: Data, k: Bin) {
    k !in d || d[k].ZSetValue?
  }

  function PutList(d: Data, k: Bin, items: seq<Bin>): (r: Data)
    ensures ListAt(r, k) == items && TakesList(r, k)
    ensures r - {k} == d - {k}
  {
    if items == [] then d - {k} else d[k := ListValue(items)]
  }

  function PutZSet(d: Data, k: Bin, z: map<Bin, int>): (r: Data)
    ensures ZSetAt(r, k) == z && TakesZSet(r, k)
    ensures r - {k} == d - {k}
  {
    if z == map[] then d - {k} else d[k := ZSetValue(z)]
  }

  /** Two keyspaces that differ at most at `k` agree on every other key. */
  lemma SameElsewhere(r: Data, d: Data, k: Bin, j: Bin)
    requires r - {k} == d - {k} && j != k
    ensures ListAt(r, j) == ListAt(d, j) && ZSetAt(r, j) == ZSetAt(d, j)
    ensures TakesList(r, j) == TakesList(d, j) && TakesZSet(r, j) == TakesZSet(d, j)
  {
    assert j in r <==> j in r - {k};
    assert j in d <==> j in d - {k};
    if j in r {
      assert r[j] == (r - {k})[j];
    }
    if j in d {
      assert d[j] == (d - {k})[j];
    }
  }

  /** Storing a list twice at the same key keeps only the second. */
  lemma PutListTwice(d: Data, k: Bin, a: seq<Bin>, b: seq<Bin>)
    ensures PutList(PutList(d, k, a), k, b) == PutList(d, k, b)
  {
    var x := PutList(PutList(d, k, a), k, b);
    var y := PutList(d, k, b);
    forall j ensures (j in x <==> j in y) && (j in x ==> x[j] == y[j]) {
      if j != k {
        assert j in x <==> j in x - {k};
        assert j in y <==> j in y - {k};
        assert j in PutList(d, k, a) <==> j in PutList(d, k, a) - {k};
        if j in x {
          assert x[j] == (x - {k})[j] == PutList(d, k, a)[j] == (PutList(d, k, a) - {k})[j];
          assert y[j] == (y - {k})[j];
        }
      }
    }
    assert x == y;
  }

  /** The keyspace with the list at `k` cut down to its first `n` elements:
      what remains after popping the others from the right. */
  function KeepLeft(d: Data, k: Bin, n: nat): (r: Data)
    requires n <= |ListAt(d, k)|
    ensures ListAt(r, k) == ListAt(d, k)[..n]
    ensures r - {k} == d - {k}
  {
    if n == |ListAt(d, k)| then d else PutList(d, k, ListAt(d, k)[..n])
  }

  /** Popping from a list already cut down to `n` elements takes its element
      `n - 1` and leaves it cut down to `n - 1`. */
  lemma PopKept(d: Data, k: Bin, n: nat)
    requires 0 < n <= |ListAt(d, k)|
    ensures RPopReply(KeepLeft(d, k, n), k) == Reply(KeepLeft(d, k, n - 1), Some(ListAt(d, k)[n - 1]))
  {
    var l := ListAt(d, k);
    var cur := KeepLeft(d, k, n);
    assert ListAt(cur, k)[..n - 1] == l[..n - 1];
    var popped := PutList(cur, k, l[..n - 1]);
    var want := KeepLeft(d, k, n - 1);
    assert want == PutList(d, k, l[..n - 1]);
    forall j ensures (j in popped <==> j in want) && (j in popped ==> popped[j] == want[j]) {
      if j != k {
        assert j in popped <==> j in popped - {k};
        assert j in want <==> j in want - {k};
        assert j in cur <==> j in cur - {k};
        assert j in d <==> j in d - {k};
        if j in popped {
          assert popped[j] == (popped - {k})[j] == cur[j];
          assert cur[j] == (cur - {k})[j] == d[j];
          assert want[j] == (want - {k})[j] == d[j];
        }
      }
    }
    assert popped == want;
  }

  // ---------------------------------------------------------------------
  // Commands as functions of the keyspace

  function LPushReply(d: Data, k: Bin, v: Bin): (r: Reply<int>)
    ensures TakesList(d, k) ==> ListAt(r.data, k) == [v] + ListAt(d, k) && r.value == |ListAt(r.data, k)| >= 1
    ensures !TakesList(d, k) ==> r == Reply(d, 0)
    ensures r.data - {k} == d - {k}
  {
    if TakesList(d, k) then
      var items := [v] + ListAt(d, k);
      Reply(PutList(d, k, items), |items|)
    else
      Reply(d, 0)
  }

  function RPushReply(d: Data, k: Bin, v: Bin): (r: Reply<int>)
    ensures TakesList(d, k) ==> ListAt(r.data, k) == ListAt(d, k) + [v] && r.value == |ListAt(r.data, k)| >= 1
    ensures !TakesList(d, k) ==> r == Reply(d, 0)
    ensures r.data - {k} == d - {k}
  {
    if TakesList(d, k) then
      var items := ListAt(d, k) + [v];
      Reply(PutList(d, k, items), |items|)
    else
      Reply(d, 0)
  }

  /** Remove and return the rightmost element; nothing when the list is empty,
      missing or not a list. */
  function RPopReply(d: Data, k: Bin): (r: Reply<Option<Bin>>)
    ensures ListAt(d, k) == [] ==> r == Reply(d, None)
    ensures ListAt(d, k) != [] ==>
              var l := ListAt(d, k);
              r.value == Some(l[|l| - 1]) && r.data == PutList(d, k, l[..|l| - 1])
  {
    var l := ListAt(d, k);
    if l == [] then Reply(d, None) else Reply(PutList(d, k, l[..|l| - 1]), Some(l[|l| - 1]))
  }

  /** The blocking pop, replying with the pair [key, element]. With a single
      caller nothing can arrive while it waits, so an empty list times out. */
  function BRPopReply(d: Data, k: Bin): (r: Reply<Option<(Bin, Bin)>>)
    ensures r.data == RPopReply(d, k).data
    ensures r.value.Some? <==> RPopReply(d, k).value.Some?
    ensures r.value.Some? ==> r.value.value == (k, RPopReply(d, k).value.value)
  {
    var p := RPopReply(d, k);
    match p.value
    case None => Reply(p.data, None)
    case Some(v) => Reply(p.data, Some((k, v)))
  }

  /** Add `m` with `score`, or overwrite its score; replies with the number of
      members that were new. */
  function ZAddReply(d: Data, k: Bin, score: int, m: Bin): (r: Reply<int>)
    ensures TakesZSet(d, k) ==>
              ZSetAt(r.data, k) == ZSetAt(d, k)[m := score] && r.value == (if m in ZSetAt(d, k) then 0 else 1)
    ensures !TakesZSet(d, k) ==> r == Reply(d, 0)
    ensures r.data - {k} == d - {k}
  {
    if TakesZSet(d, k) then
      var z := ZSetAt(d, k);
      Reply(PutZSet(d, k, z[m := score]), if m in z then 0 else 1)
    else
      Reply(d, 0)
  }

  /** Remove the listed members; replies with how many were present. */
  function ZRemReply(d: Data, k: Bin, ms: seq<Bin>): (r: Reply<int>)
    ensures TakesZSet(d, k) ==> ZSetAt(r.data, k) == ZSetAt(d, k) - (set m | m in ms)
    ensures !TakesZSet(d, k) ==> r == Reply(d, 0)
    ensures r.data - {k} == d - {k}
    ensures (forall m :: m in ms ==> m !in ZSetAt(d, k)) ==> r == Reply(d, 0)
    ensures TakesZSet(d, k) ==> r.value == |ZSetAt(d, k).Keys * (set m | m in ms)|
  {
    if TakesZSet(d, k) then
      var z := ZSetAt(d, k);
      var z' := z - (set m | m in ms);
      if z' == z then Reply(d, 0) else Reply(PutZSet(d, k, z'), |z| - |z'|)
    else
      Reply(d, 0)
  }
  /** zRem with no member names removes nothing. */
  lemma ZRemNothing(d: Data, k: Bin)
    ensures ZRemReply(d, k, []) == Reply(d, 0)
  {
  }


  /** A write command as the server answers it: not admitted, it is refused
      with an error reply before anything changes, and the client's `false`
      reads as 0. */
  function Gated(admitted: bool, d: Data, r: Reply<int>): (g: Reply<int>)
    ensures admitted ==> g == r
    ensures !admitted ==> g == Reply(d, 0)
  {
    if admitted then r else Reply(d, 0)
  }

  /** The admission of a server with no memory limit: every write. */
  function NoLimit(d: Data): bool {
    true
  }

  function ZScoreReply(d: Data, k: Bin, m: Bin): (r: Option<int>)
    ensures r.Some? <==> m in ZSetAt(d, k)
    ensures r.Some? ==> r.value == ZSetAt(d, k)[m]
  {
    var z := ZSetAt(d, k);
    if m in z then Some(z[m]) else None
  }

  // ---------------------------------------------------------------------
  // The order of a sorted set: by score, equal scores by member bytes

  /** Lexicographic order of strings, as Redis orders members of equal score. */
  predicate Below(a: Bin, b: Bin)
    decreases |a|
  {
    if a == [] then b != []
    else b != [] && (a[0] < b[0] || (a[0] == b[0] && Below(a[1..], b[1..])))
  }

  lemma {:induction false} BelowAsymmetric(a: Bin, b: Bin)
    ensures !(Below(a, b) && Below(b, a))
    decreases |a|
  {
    if a != [] && b != [] && a[0] == b[0] {
      BelowAsymmetric(a[1..], b[1..]);
    }
  }

  lemma {:induction false} BelowTotal(a: Bin, b: Bin)
    ensures a == b || Below(a, b) || Below(b, a)
    decreases |a|
  {
    if a != [] && b != [] && a[0] == b[0] {
      BelowTotal(a[1..], b[1..]);
      if a[1..] == b[1..] {
        assert a == [a[0]] + a[1..] && b == [b[0]] + b[1..];
      }
    }
  }

  lemma {:induction false} BelowTransitive(a: Bin, b: Bin, c: Bin)
    requires Below(a, b) && Below(b, c)
    ensures Below(a, c)
    decreases |a|
  {
    if a != [] && a[0] == b[0] && b[0] == c[0] {
      BelowTransitive(a[1..], b[1..], c[1..]);
    }
  }

  /** `a` comes before `b` in the set's order. */
  predicate Precedes(z: map<Bin, int>, a: Bin, b: Bin)
    requires a in z && b in z
  {
    z[a] < z[b] || (z[a] == z[b] && Below(a, b))
  }

  /** `m` is the first member of `z`. */
  predicate IsFirst(z: map<Bin, int>, m: Bin) {
    m in z && forall k :: k in z && k != m ==> Precedes(z, m, k)
  }

  /** A sequence of members of `z`, each before every later one. */
  ghost predicate Ranked(z: map<Bin, int>, s: seq<Bin>) {
    && (forall i :: 0 <= i < |s| ==> s[i] in z)
    && (forall i, j :: 0 <= i < j < |s| ==> Precedes(z, s[i], s[j]))
  }

  lemma {:induction false} FirstExists(z: map<Bin, int>)
    requires |z| > 0
    ensures exists m :: IsFirst(z, m)
    decreases |z|
  {
    var x :| x in z;
    var rest := z - {x};
    assert rest.Keys == z.Keys - {x};
    if |rest| == 0 {
      assert forall k :: k in z ==> k == x;
      assert IsFirst(z, x);
    } else {
      FirstExists(rest);
      var y :| IsFirst(rest, y);
      BelowTotal(x, y);
      if Precedes(z, x, y) {
        forall k | k in z && k != x ensures Precedes(z, x, k) {
          if k != y {
            assert Precedes(rest, y, k);
            if z[x] == z[y] == z[k] {
              BelowTransitive(x, y, k);
            }
          }
        }
        assert IsFirst(z, x);
      } else {
        assert Precedes(z, y, x);
        forall k | k in z && k != y ensures Precedes(z, y, k) {
          if k != x {
            assert Precedes(rest, y, k);
          }
        }
        assert IsFirst(z, y);
      }
    }
  }

  lemma FirstUnique(z: map<Bin, int>)
    ensures forall a, b :: IsFirst(z, a) && IsFirst(z, b) ==> a == b
  {
    forall a, b | IsFirst(z, a) && IsFirst(z, b) ensures a == b {
      if a != b {
        assert Precedes(z, a, b) && Precedes(z, b, a);
        BelowAsymmetric(a, b);
      }
    }
  }

  /** Putting the first member in front of the others, in order, gives all of
      them in order. */
  lemma PrependFirst(z: map<Bin, int>, m: Bin, tail: seq<Bin>)
    requires IsFirst(z, m)
    requires forall x :: x in tail <==> x in z && x != m
    requires Ranked(z - {m}, tail)
    ensures forall x :: x in [m] + tail <==> x in z
    ensures Ranked(z, [m] + tail)
  {
    var r := [m] + tail;
    forall i | 0 <= i < |tail| ensures tail[i] in z && (z - {m})[tail[i]] == z[tail[i]] {
      assert tail[i] in tail;
    }
    forall i, j | 0 <= i < j < |r| ensures Precedes(z, r[i], r[j]) {
      if i == 0 {
        assert r[j] == tail[j - 1] && r[j] in tail;
      } else {
        assert r[i] == tail[i - 1] && r[j] == tail[j - 1];
        assert Precedes(z - {m}, tail[i - 1], tail[j - 1]);
      }
    }
  }

  /** The members of `z` in the set's order. */
  function SortedMembers(z: map<Bin, int>): (r: seq<Bin>)
    ensures |r| == |z|
    ensures forall m :: m in r <==> m in z
    ensures Ranked(z, r)
    decreases |z|
  {
    if |z| == 0 then []
    else
      FirstExists(z);
      FirstUnique(z);
      var m :| m in z && IsFirst(z, m);
      var rest := z - {m};
      assert rest.Keys == z.Keys - {m};
      var tail := SortedMembers(rest);
      PrependFirst(z, m, tail);
      [m] + tail
  }

  /** The score lies in `[lo, hi]`. */
  predicate InBounds(score: int, lo: int, hi: Bound) {
    lo <= score && (hi.AtMost? ==> score <= hi.max)
  }

  /** The members of `order` whose scores lie in `[lo, hi]`, in the same order. */
  function Within(order: seq<Bin>, z: map<Bin, int>, lo: int, hi: Bound): (r: seq<Bin>)
    requires forall i :: 0 <= i < |order| ==> order[i] in z
    ensures forall m :: m in r <==> m in order && InBounds(z[m], lo, hi)
    ensures Ranked(z, order) ==> Ranked(z, r)
  {
    if order == [] then []
    else
      var tail := Within(order[1..], z, lo, hi);
      assert forall m :: m in order[1..] ==> m in order;
      if InBounds(z[order[0]], lo, hi) then [order[0]] + tail else tail
  }

  /** The range query with `LIMIT offset limit`: a slice of all members with a
      score in `[lo, hi]`, in the set's order. */
  function ZRangeByScoreReply(d: Data, k: Bin, lo: int, hi: Bound, offset: nat, limit: nat): (r: seq<Bin>)
    ensures var all := RangeMembers(ZSetAt(d, k), lo, hi);
            && |r| == (if offset >= |all| then 0 else if limit < |all| - offset then limit else |all| - offset)
            && (forall i :: 0 <= i < |r| ==> r[i] == all[offset + i])
    ensures forall m :: m in r ==> m in ZSetAt(d, k) && InBounds(ZSetAt(d, k)[m], lo, hi)
    ensures Ranked(ZSetAt(d, k), r)
  {
    var all := RangeMembers(ZSetAt(d, k), lo, hi);
    PageRanked(ZSetAt(d, k), all, offset, limit);
    Page(all, offset, limit)
  }

  /** `LIMIT offset limit` applied to a reply. */
  function Page(all: seq<Bin>, offset: nat, limit: nat): (r: seq<Bin>)
    ensures |r| == (if offset >= |all| then 0 else if limit < |all| - offset then limit else |all| - offset)
    ensures forall i :: 0 <= i < |r| ==> r[i] == all[offset + i]
  {
    if offset >= |all| then [] else all[offset..if offset + limit < |all| then offset + limit else |all|]
  }

  /** A page of a ranked reply is ranked and holds only members of it. */
  lemma PageRanked(z: map<Bin, int>, all: seq<Bin>, offset: nat, limit: nat)
    requires Ranked(z, all)
    ensures Ranked(z, Page(all, offset, limit))
    ensures forall m :: m in Page(all, offset, limit) ==> m in all
  {
    var r := Page(all, offset, limit);
    forall i, j | 0 <= i < j < |r|
      ensures Precedes(z, r[i], r[j])
    {
      assert r[i] == all[offset + i] && r[j] == all[offset + j];
    }
  }

  lemma PageJoin(all: seq<Bin>, offset: nat, a: nat, b: nat)
    ensures Page(all, offset, a) + Page(all, offset + a, b) == Page(all, offset, a + b)
  {
    var n := |all|;
    if offset < n && offset + a < n {
      var end := if offset + a + b < n then offset + a + b else n;
      assert all[offset..offset + a] + all[offset + a..end] == all[offset..end];
    }
  }

  /** Paging loses and repeats nothing: a page of `a` members followed by the
      page after it, of `b` members, is the page of `a + b` members. */
  lemma PagesJoin(d: Data, k: Bin, lo: int, hi: Bound, offset: nat, a: nat, b: nat)
    ensures ZRangeByScoreReply(d, k, lo, hi, offset, a) + ZRangeByScoreReply(d, k, lo, hi, offset + a, b)
            == ZRangeByScoreReply(d, k, lo, hi, offset, a + b)
  {
    PageJoin(RangeMembers(ZSetAt(d, k), lo, hi), offset, a, b);
  }

  /** Every member of `z` with a score in `[lo, hi]`, in the set's order. */
  function RangeMembers(z: map<Bin, int>, lo: int, hi: Bound): (r: seq<Bin>)
    ensures forall m :: m in r <==> m in z && InBounds(z[m], lo, hi)
    ensures Ranked(z, r)
  {
    Within(SortedMembers(z), z, lo, hi)
  }

  // ---------------------------------------------------------------------
  // The client object

  /** A connection to the store. While `up` is false every command raises the
      client's exception, so callers check it before their first command.
      `admits` is the server's admission of write commands (lPush, rPush,
      zAdd) in a given keyspace: Redis refuses them with an error reply once
      its memory limit is reached and eviction is off, and the client returns
      that reply as `false`. Pops and removals are always admitted. */
  class Store {
    var data: Data
    var up: bool
    const admits: Data -> bool

    constructor (data: Data, up: bool, admits: Data -> bool)
      ensures this.data == data && this.up == up && this.admits == admits
    {
      this.data := data;
      this.up := up;
      this.admits := admits;
    }

    method LPush(k: Bin, v: Bin) returns (n: int)
      requires up
      modifies this`data
      ensures var r := Gated(admits(old(data)), old(data), LPushReply(old(data), k, v));
              data == r.data && n == r.value
    {
      var r := Gated(admits(data), data, LPushReply(data, k, v));
      data, n := r.data, r.value;
    }

    method RPush(k: Bin, v: Bin) returns (n: int)
      requires up
      modifies this`data
      ensures var r := Gated(admits(old(data)), old(data), RPushReply(old(data), k, v));
              data == r.data && n == r.value
    {
      var r := Gated(admits(data), data, RPushReply(data, k, v));
      data, n := r.data, r.value;
    }

    method RPop(k: Bin) returns (v: Option<Bin>)
      requires up
      modifies this`data
      ensures data == RPopReply(old(data), k).data && v == RPopReply(old(data), k).value
    {
      var r := RPopReply(data, k);
      data, v := r.data, r.value;
    }

    method BRPop(k: Bin, timeout: int) returns (v: Option<(Bin, Bin)>)
      requires up
      modifies this`data
      ensures data == BRPopReply(old(data), k).data && v == BRPopReply(old(data), k).value
    {
      var r := BRPopReply(data, k);
      data, v := r.data, r.value;
    }

    method LLen(k: Bin) returns (n: int)
      requires up
      ensures n == |ListAt(data, k)|
    {
      n := |ListAt(data, k)|;
    }

    method ZAdd(k: Bin, score: int, m: Bin) returns (n: int)
      requires up
      modifies this`data
      ensures var r := Gated(admits(old(data)), old(data), ZAddReply(old(data), k, score, m));
              data == r.data && n == r.value
    {
      var r := Gated(admits(data), data, ZAddReply(data, k, score, m));
      data, n := r.data, r.value;
    }

    method ZRem(k: Bin, ms: seq<Bin>) returns (n: int)
      requires up
      modifies this`data
      ensures data == ZRemReply(old(data), k, ms).data && n == ZRemReply(old(data), k, ms).value
    {
      var r := ZRemReply(data, k, ms);
      data, n := r.data, r.value;
    }

    method ZScore(k: Bin, m: Bin) returns (s: Option<int>)
      requires up
      ensures s == ZScoreReply(data, k, m)
    {
      s := ZScoreReply(data, k, m);
    }

    method ZCard(k: Bin) returns (n: int)
      requires up
      ensures n == |ZSetAt(data, k)|
    {
      n := |ZSetAt(data, k)|;
    }

    method ZRangeByScore(k: Bin, lo: int, hi: Bound, offset: nat, limit: nat) returns (page: seq<Bin>)
      requires up
      ensures page == ZRangeByScoreReply(data, k, lo, hi, offset, limit)
    {
      page := ZRangeByScoreReply(data, k, lo, hi, offset, limit);
    }
  }
}
