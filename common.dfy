/** Shared vocabulary of the model: optional values, results, resource
    identifiers and a few facts about sequences. */
module Common {

  datatype Option<T> = None | Some(value: T) {
    function GetOr(default: T): T {
      if Some? then value else default
    }
  }

  /** The outcome of an operation that may raise instead of returning. */
  datatype Result<T, E> = Ok(value: T) | Err(error: E)

  /** An AWS resource identifier: an ARN, a volume or snapshot id, a bucket
      or role name. */
  type Id = string

  /** Number of occurrences of x in s. */
  function Count<T(==)>(s: seq<T>, x: T): nat {
    if s == [] then 0 else (if s[0] == x then 1 else 0) + Count(s[1..], x)
  }

  /** A non-empty sequence is its front followed by its last element. */
  lemma LastSplit<T>(s: seq<T>)
    requires s != []
    ensures s == s[..|s| - 1] + [s[|s| - 1]]
  {
  }

  lemma {:induction false} CountAppend<T>(a: seq<T>, b: seq<T>, x: T)
    ensures Count(a + b, x) == Count(a, x) + Count(b, x)
  {
    if a == [] {
      assert a + b == b;
    } else {
      assert (a + b)[1..] == a[1..] + b;
      CountAppend(a[1..], b, x);
    }
  }

  /** An element of a sequence occurs in it at least once. */
  lemma {:induction false} CountPositive<T>(s: seq<T>, x: T)
    requires x in s
    ensures Count(s, x) >= 1
  {
    if s[0] != x {
      CountPositive(s[1..], x);
    }
  }

  predicate Distinct<T(==)>(s: seq<T>) {
    forall i, j | 0 <= i < j < |s| :: s[i] != s[j]
  }

  /** The keys of the elements that pass `keep`, in order. */
  function Select<T>(xs: seq<T>, keep: T -> bool, key: T -> Id): seq<Id> {
    if xs == [] then []
    else Select(xs[..|xs| - 1], keep, key) + (if keep(xs[|xs| - 1]) then [key(xs[|xs| - 1])] else [])
  }

  lemma {:induction false} SelectMember<T>(xs: seq<T>, keep: T -> bool, key: T -> Id, a: Id)
    ensures a in Select(xs, keep, key) <==> exists i | 0 <= i < |xs| :: key(xs[i]) == a && keep(xs[i])
  {
    if xs != [] {
      var p, x := xs[..|xs| - 1], xs[|xs| - 1];
      SelectMember(p, keep, key, a);
      if a in Select(p, keep, key) {
        var i :| 0 <= i < |p| && key(p[i]) == a && keep(p[i]);
        assert xs[i] == p[i];
      } else if key(x) == a && keep(x) {
        assert xs[|xs| - 1] == x;
      } else {
        forall i | 0 <= i < |xs| && key(xs[i]) == a
          ensures !keep(xs[i])
        {
          if i < |p| {
            assert p[i] == xs[i];
          }
        }
      }
    }
  }

  /** Sum of a sequence of amounts, added up in order. */
  function Sum(s: seq<real>): real {
    if s == [] then 0.0 else Sum(s[..|s| - 1]) + s[|s| - 1]
  }

  /** Sum of a sequence of natural numbers, added up in order. */
  function SumNat(s: seq<nat>): nat {
    if s == [] then 0 else SumNat(s[..|s| - 1]) + s[|s| - 1]
  }

  const SECONDS_PER_DAY: int := 86400

  /** `now - timedelta(days=days)`, in seconds. */
  function Cutoff(now: int, days: int): int {
    now - days * SECONDS_PER_DAY
  }
}
