/** Values shared by every part of the model: instants, options and rounding. */
module Common {

  datatype Option<+T> = None | Some(value: T)

  /** Seconds on the one clock that the service, its database and Redis read. */
  type Instant = real

  function Max(a: real, b: real): real {
    if a < b then b else a
  }

  function Min(a: real, b: real): real {
    if b < a then b else a
  }

  /** The least integer that is not below x. */
  function Ceil(x: real): (n: int)
    ensures n as real - 1.0 < x <= n as real
  {
    if x.Floor as real == x then x.Floor else x.Floor + 1
  }

  lemma CeilMonotone(x: real, y: real)
    requires x <= y
    ensures Ceil(x) <= Ceil(y)
  {
  }

  predicate Nondecreasing(clock: seq<Instant>) {
    forall i, j :: 0 <= i <= j < |clock| ==> clock[i] <= clock[j]
  }

  /** The elements of s at the positions that keep marks. */
  function Select<T>(s: seq<T>, keep: seq<bool>): seq<T>
    requires |s| == |keep|
  {
    if s == [] then []
    else (if keep[0] then [s[0]] else []) + Select(s[1..], keep[1..])
  }

  lemma {:induction false} SelectLast<T>(s: seq<T>, x: T, keep: seq<bool>, kept: bool)
    requires |s| == |keep|
    ensures Select(s + [x], keep + [kept]) == Select(s, keep) + (if kept then [x] else [])
  {
    if s == [] {
      assert (s + [x])[1..] == [] && (keep + [kept])[1..] == [];
    } else {
      SelectLast(s[1..], x, keep[1..], kept);
      assert (s + [x])[1..] == s[1..] + [x] && (keep + [kept])[1..] == keep[1..] + [kept];
    }
  }

  function CountIf<T>(s: seq<T>, p: T -> bool): nat {
    if s == [] then 0 else CountIf(s[..|s| - 1], p) + (if p(s[|s| - 1]) then 1 else 0)
  }

  lemma CountAppend<T>(s: seq<T>, x: T, p: T -> bool)
    ensures CountIf(s + [x], p) == CountIf(s, p) + (if p(x) then 1 else 0)
  {
    assert (s + [x])[..|s|] == s;
  }

  lemma {:induction false} CountUpdate<T>(s: seq<T>, i: nat, x: T, p: T -> bool)
    requires i < |s|
    ensures CountIf(s[i := x], p) + (if p(s[i]) then 1 else 0) == CountIf(s, p) + (if p(x) then 1 else 0)
  {
    var last := |s| - 1;
    if i == last {
      assert s[i := x][..last] == s[..last];
    } else {
      CountUpdate(s[..last], i, x, p);
      assert s[i := x][..last] == s[..last][i := x];
    }
  }

  lemma {:induction false} CountNone<T>(s: seq<T>, p: T -> bool)
    requires forall i :: 0 <= i < |s| ==> !p(s[i])
    ensures CountIf(s, p) == 0
  {
    if s != [] {
      CountNone(s[..|s| - 1], p);
    }
  }

  lemma {:induction false} CountMore<T>(s: seq<T>, p: T -> bool, q: T -> bool)
    requires forall i :: 0 <= i < |s| && p(s[i]) ==> q(s[i])
    ensures CountIf(s, p) <= CountIf(s, q)
  {
    if s != [] {
      CountMore(s[..|s| - 1], p, q);
    }
  }

  /** What meets p meets exactly one of q and r, and nothing else meets either. */
  predicate Splits<T>(s: seq<T>, p: T -> bool, q: T -> bool, r: T -> bool) {
    forall i :: 0 <= i < |s| ==> (p(s[i]) <==> q(s[i]) || r(s[i])) && !(q(s[i]) && r(s[i]))
  }

  lemma {:induction false} CountSplit<T>(s: seq<T>, p: T -> bool, q: T -> bool, r: T -> bool)
    requires Splits(s, p, q, r)
    ensures CountIf(s, p) == CountIf(s, q) + CountIf(s, r)
  {
    if s != [] {
      CountSplit(s[..|s| - 1], p, q, r);
    }
  }

  lemma JoinAssociates<T>(a: seq<T>, b: seq<T>, c: seq<T>)
    ensures (a + b) + c == a + (b + c)
  {
  }

  lemma LastSplits<T>(s: seq<T>)
    requires s != []
    ensures s == s[..|s| - 1] + [s[|s| - 1]]
  {
  }

  predicate Distinct(batch: seq<nat>) {
    forall i, j :: 0 <= i < j < |batch| ==> batch[i] != batch[j]
  }

  function Members(batch: seq<nat>): set<nat> {
    set i | 0 <= i < |batch| :: batch[i]
  }

  lemma {:induction false} DistinctSize(batch: seq<nat>)
    requires Distinct(batch)
    ensures |Members(batch)| == |batch|
  {
    if batch != [] {
      var last := |batch| - 1;
      DistinctSize(batch[..last]);
      assert Members(batch) == Members(batch[..last]) + {batch[last]};
      assert batch[last] !in Members(batch[..last]);
    }
  }

  lemma SubsetSize<T>(a: set<T>, b: set<T>)
    requires a <= b
    ensures |a| <= |b|
  {
    assert b == a + (b - a);
  }

  /** How many batches of d surely go past n rows: floor(n / d) + 1. */
  function Rounds(n: nat, d: nat): nat
    requires d >= 1
  {
    n / d + 1
  }

  lemma FloorBound(n: nat, d: nat, q: nat)
    requires d >= 1 && q >= Rounds(n, d)
    ensures d * q > n
  {
    assert n == d * (n / d) + n % d;
    assert d * q >= d * (n / d + 1) == d * (n / d) + d;
  }
}
