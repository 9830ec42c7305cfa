/** The few LINQ operators the services and repositories use, over sequences:
    FirstOrDefault becomes FirstIndex, Where becomes Where. */
module Linq {

  datatype Option<T> = None | Some(value: T)

  /** The index of the first element satisfying `p` (FirstOrDefault), or None
      when no element does. */
  function FirstIndex<T>(s: seq<T>, p: T -> bool): (r: Option<nat>)
    ensures r.None? <==> forall j | 0 <= j < |s| :: !p(s[j])
    ensures r.Some? ==> r.value < |s| && p(s[r.value])
    ensures r.Some? ==> forall j | 0 <= j < r.value :: !p(s[j])
  {
    if s == [] then None
    else if p(s[0]) then Some(0)
    else
      match FirstIndex(s[1..], p)
      case None => None
      case Some(k) => Some(k + 1)
  }

  /** FirstOrDefault: the first element satisfying `p`, or None (null). */
  function FirstOrDefault<T>(s: seq<T>, p: T -> bool): (r: Option<T>)
    ensures r.None? <==> forall j | 0 <= j < |s| :: !p(s[j])
    ensures r.Some? ==> FirstIndex(s, p).Some? && r.value == s[FirstIndex(s, p).value]
    ensures r.Some? ==> r.value in s && p(r.value)
  {
    match FirstIndex(s, p)
    case None => None
    case Some(k) => Some(s[k])
  }

  /** The elements satisfying `p`, in their stored order (Where). */
  function Where<T>(s: seq<T>, p: T -> bool): (r: seq<T>)
    ensures |r| <= |s|
    ensures forall j | 0 <= j < |r| :: r[j] in s && p(r[j])
    ensures forall j | 0 <= j < |s| && p(s[j]) :: s[j] in r
  {
    if s == [] then []
    else (if p(s[0]) then [s[0]] else []) + Where(s[1..], p)
  }

  /** Where distributes over concatenation, so it keeps the stored order. */
  lemma {:induction false} WhereAppend<T>(a: seq<T>, b: seq<T>, p: T -> bool)
    ensures Where(a + b, p) == Where(a, p) + Where(b, p)
  {
    if a == [] {
      assert a + b == b;
    } else {
      assert (a + b)[1..] == a[1..] + b;
      WhereAppend(a[1..], b, p);
    }
  }

  /** Skip(n): drops the first n elements; a count of zero or less drops none. */
  function Skip<T>(s: seq<T>, n: int): seq<T>
  {
    if n <= 0 then s else if n >= |s| then [] else s[n..]
  }

  /** Take(n): keeps the first n elements; a count of zero or less keeps none. */
  function Take<T>(s: seq<T>, n: int): seq<T>
  {
    if n <= 0 then [] else if n >= |s| then s else s[..n]
  }
}
