/** Shared vocabulary: results of fallible operations, identifiers and time. */
module Prelude {
  datatype Option<+T> = None | Some(value: T)

  /** A Go `(value, error)` pair, usable with `:-`. */
  datatype Result<+T, +E> = Success(value: T) | Failure(error: E) {
    predicate IsFailure() { Failure? }

    function PropagateFailure<U>(): Result<U, E>
      requires Failure?
    {
      Failure(error)
    }

    function Extract(): T
      requires Success?
    {
      value
    }
  }

  /** A UUID. A fresh one is drawn from a counter, so zero plays the nil UUID. */
  type Id = nat

  /** Microseconds since the epoch, UTC, as the database keeps them, and whole UTC days. */
  type Instant = int
  type Day = int

  const SECOND := 1_000_000
  const WHOLE_DAY := 86_400 * SECOND

  function DayOf(at: Instant): Day { at / WHOLE_DAY }

  function NoonOf(day: Day): Instant { day * WHOLE_DAY + WHOLE_DAY / 2 }

  function Abs(x: int): nat { if x < 0 then -x else x }

  predicate Within(low: Option<Day>, day: Day, high: Option<Day>) {
    low.Some? && high.Some? && low.value <= day <= high.value
  }

  /** Every nonempty finite set of identifiers has a least member. */
  lemma FindLeast(s: set<Id>) returns (m: Id)
    requires s != {}
    ensures m in s && forall x :: x in s ==> m <= x
  {
    m :| m in s;
    if s != {m} {
      var rest := s - {m};
      var k := FindLeast(rest);
      assert forall x :: x in s ==> x == m || x in rest;
      m := if k <= m then k else m;
    }
  }

  lemma HasLeast(s: set<Id>)
    requires s != {}
    ensures exists m :: m in s && forall x :: x in s ==> m <= x
  {
    var m := FindLeast(s);
  }

  function Least(s: set<Id>): (m: Id)
    requires s != {}
    ensures m in s && forall x :: x in s ==> m <= x
  {
    HasLeast(s);
    var m :| m in s && forall x :: x in s ==> m <= x;
    m
  }

  lemma Pick<T>(s: set<T>) returns (x: T)
    requires s != {}
    ensures x in s
  {
    x :| x in s;
  }

  lemma Singleton<T>(s: set<T>, x: T)
    requires |s| == 1 && x in s
    ensures s == {x}
  {
    if y :| y in s && y != x {
      assert |{x, y}| == 2 && {x, y} <= s;
      SubsetSize({x, y}, s);
    }
  }

  lemma SubsetSize<T>(a: set<T>, b: set<T>)
    requires a <= b
    ensures |a| <= |b|
    ensures |a| == |b| ==> a == b
    decreases b
  {
    if a != {} {
      var x :| x in a;
      SubsetSize(a - {x}, b - {x});
      assert a == (a - {x}) + {x} && b == (b - {x}) + {x};
    }
  }
}
