/**
 The vocabulary every other module shares: 64-bit counters, identifiers, the
 four states of a pair of executables, and the records the stores keep.

 An executable is never removed, so its slot-map key is modelled by its
 position, an increasing natural.  A map can be removed and its slot reused
 under a new generation, so a map id is a natural that is never issued twice.
 */
module Domain {

  datatype Option<+T> = None | Some(value: T)

  const U64_MAX: int := 0xFFFF_FFFF_FFFF_FFFF

  type U64 = x: int | 0 <= x <= U64_MAX

  function SatAdd(a: U64, b: U64): U64 {
    if a + b <= U64_MAX then a + b else U64_MAX
  }

  function SatSub(a: U64, b: U64): U64 {
    if b <= a then a - b else 0
  }

  type Path = string
  type ExeId = nat
  type MapId = nat

  datatype MapKey = MapKey(path: Path, offset: U64, length: U64)

  datatype MapSegment = MapSegment(path: Path, offset: U64, length: U64, updateTime: U64, device: U64, inode: U64) {
    function Key(): MapKey {
      MapKey(path, offset, length)
    }
  }

  datatype Exe = Exe(path: Path, total: U64, lastSeen: Option<U64>, running: bool, changeTime: U64)

  function NewExe(path: Path): Exe {
    Exe(path, 0, None, false, 0)
  }

  datatype MarkovState = Neither | AOnly | BOnly | Both {
    function Index(): nat {
      match this
      case Neither => 0
      case AOnly => 1
      case BOnly => 2
      case Both => 3
    }
  }

  function FromRunning(a: bool, b: bool): MarkovState {
    match (a, b)
    case (false, false) => Neither
    case (true, false) => AOnly
    case (false, true) => BOnly
    case (true, true) => Both
  }

  datatype EdgeKey = EdgeKey(a: ExeId, b: ExeId)

  // The canonical name of an unordered pair: the smaller id comes first.
  function PairKey(a: ExeId, b: ExeId): EdgeKey {
    if a < b then EdgeKey(a, b) else EdgeKey(b, a)
  }

  // An unordered pair has one canonical name, and different pairs have different names.
  lemma PairKeyCanonical(a: ExeId, b: ExeId, c: ExeId, d: ExeId)
    ensures var k := PairKey(a, b); k.a <= k.b && {k.a, k.b} == {a, b}
    ensures PairKey(a, b) == PairKey(c, d) <==> {a, b} == {c, d}
  {
  }

  // What a state says of the two ends of its pair.
  predicate Tells(s: MarkovState, first: bool, second: bool) {
    && (s.Both? <==> first && second)
    && (s.AOnly? <==> first && !second)
    && (s.BOnly? <==> second && !first)
    && (s.Neither? <==> !first && !second)
  }

  // The state of a pair tells which end runs; it is numbered in binary, the first end
  // counting one and the second two, and naming the ends the other way round exchanges the two
  // states in which one of them runs.
  lemma StateOfEnds(a: bool, b: bool)
    ensures Tells(FromRunning(a, b), a, b)
    ensures FromRunning(a, b).Index() == (if a then 1 else 0) + (if b then 2 else 0)
    ensures FromRunning(b, a) == if a == b then FromRunning(a, b) else if FromRunning(a, b) == AOnly then BOnly else AOnly
  {
  }
}
