/** The pool of agent ports: an inclusive range, handed out lowest first. */
module PortPool {

  type Port = int

  datatype Result<T> = Ok(value: T) | InvalidRange | Exhausted

  function Range(min: Port, max: Port): (r: set<Port>)
    ensures forall p :: p in r <==> min <= p <= max
    ensures min <= max + 1 ==> |r| == max - min + 1
    decreases max - min + 1
  {
    if min <= max then Range(min, max - 1) + {max} else {}
  }

  lemma {:induction false} SubsetSize<T>(a: set<T>, b: set<T>)
    requires a <= b
    ensures |a| <= |b|
    decreases |b|
  {
    if x :| x in b {
      SubsetSize(a - {x}, b - {x});
    }
  }

  /** The lowest port of the range that is not taken. */
  ghost predicate LowestFree(min: Port, max: Port, taken: set<Port>, port: Port) {
    && min <= port <= max
    && port !in taken
    && Range(min, port - 1) <= taken
  }

  class Pool {
    const min: Port
    const max: Port
    var taken: set<Port>

    ghost predicate Valid()
      reads this
    {
      min <= max && taken <= Range(min, max)
    }

    constructor (min: Port, max: Port)
      requires min <= max
      ensures Valid() && taken == {} && this.min == min && this.max == max
    {
      this.min := min;
      this.max := max;
      taken := {};
    }

    /** The checked way to make a pool. */
    static method Create(min: Port, max: Port) returns (r: Result<Pool>)
      ensures r == InvalidRange <==> min > max
      ensures min <= max ==> r.Ok? && fresh(r.value) && r.value.Valid() && r.value.taken == {}
      ensures min <= max ==> r.value.min == min && r.value.max == max
    {
      if min > max {
        return InvalidRange;
      }
      var pool := new Pool(min, max);
      return Ok(pool);
    }

    function AllocatedCount(): nat
      reads this
    {
      |taken|
    }

    method Allocate() returns (r: Result<Port>)
      requires Valid()
      modifies this
      ensures Valid()
      ensures r.Ok? ==> LowestFree(min, max, old(taken), r.value) && taken == old(taken) + {r.value}
      ensures !r.Ok? ==> r == Exhausted && taken == old(taken) == Range(min, max)
      ensures r.Ok? <==> old(AllocatedCount()) < max - min + 1
    {
      SubsetSize(taken, Range(min, max));
      var port := min;
      while port <= max
        invariant min <= port <= max + 1
        invariant Range(min, port - 1) <= taken
      {
        if port !in taken {
          SubsetSize(taken, Range(min, max) - {port});
          taken := taken + {port};
          return Ok(port);
        }
        port := port + 1;
      }
      return Exhausted;
    }

    method Release(port: Port)
      requires Valid()
      modifies this
      ensures Valid() && taken == old(taken) - {port}
    {
      taken := taken - {port};
    }
  }
}
