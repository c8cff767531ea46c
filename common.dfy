/** Shared vocabulary of the billing service: time, identifiers and the
    failure-compatible wrappers used by every other module. */
module Common {

  /** Timestamps are whole seconds; only differences and order matter. */
  type Time = int
  type TenantId = string
  type ResourceId = string

  /** Length of one collection window (`timedelta(hours=1)`). */
  const HourSeconds: int := 3600

  /** `dawn_of_time`: the watermark of a tenant never collected and the start
      of its first sales order. Its concrete value is irrelevant to the model. */
  const DawnOfTime: Time := 0

  datatype Option<+T> = None | Some(value: T) {
    function GetOr(default: T): T {
      match this
      case Some(v) => v
      case None => default
    }
  }

  datatype Result<+R, +E> = Success(value: R) | Failure(error: E)

  /** The hour-truncation of a clock reading (`replace(minute=0, second=0)`). */
  function FloorHour(t: Time): (r: Time)
    ensures r <= t < r + HourSeconds
    ensures r % HourSeconds == 0
  {
    t - t % HourSeconds
  }

  /** Keep the elements of `s` satisfying `p`, in order. */
  function Filter<T>(s: seq<T>, p: T -> bool): (r: seq<T>)
    ensures |r| <= |s|
    ensures forall x :: x in r ==> x in s && p(x)
    ensures forall x :: x in s && p(x) ==> x in r
  {
    if s == [] then []
    else Filter(s[..|s| - 1], p) + (if p(s[|s| - 1]) then [s[|s| - 1]] else [])
  }

  lemma {:induction false} FilterAppend<T>(a: seq<T>, b: seq<T>, p: T -> bool)
    ensures Filter(a + b, p) == Filter(a, p) + Filter(b, p)
  {
    if b == [] {
      assert a + b == a;
    } else {
      assert (a + b)[..|a + b| - 1] == a + b[..|b| - 1];
      FilterAppend(a, b[..|b| - 1], p);
    }
  }

  /** Appending `a` and then `b` appends `a + b`. A proof helper: it keeps
      the associativity step apart from large sequence terms. */
  lemma AppendTwice<T>(p0: seq<T>, p1: seq<T>, p2: seq<T>, a: seq<T>, b: seq<T>)
    requires p1 == p0 + a && p2 == p1 + b
    ensures p2 == p0 + (a + b)
  {
  }
}
