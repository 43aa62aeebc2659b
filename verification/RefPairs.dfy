/** The two reference counts of one object, and what get and put do to them
    (sm/lock.py, RefCounter.get, put and _adjust). */
module RefPairs {

  datatype Pair = Pair(normal: nat, binary: nat)

  const ZERO := Pair(0, 0)

  function Clamp(x: int): nat {
    if x < 0 then 0 else x
  }

  /** RefCounter._adjust: both counts stop at zero, the binary one also at one. */
  function Adjust(p: Pair, delta: int, binaryDelta: int): Pair {
    var b := Clamp(p.binary + binaryDelta);
    Pair(Clamp(p.normal + delta), if b > 1 then 1 else b)
  }

  function Get(p: Pair, binary: bool): Pair {
    if binary then Adjust(p, 0, 1) else Adjust(p, 1, 0)
  }

  function Put(p: Pair, binary: bool): Pair {
    if binary then Adjust(p, 0, -1) else Adjust(p, -1, 0)
  }

  /** What get and put return. */
  function Total(p: Pair): nat {
    p.normal + p.binary
  }

  predicate Proper(p: Pair) {
    p.binary <= 1
  }
}
