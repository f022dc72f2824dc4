/** Vocabulary shared by every component of the model. */
module Domain {
  datatype Option<+T> = None | Some(value: T) {
    function GetOr(default: T): T {
      match this
      case Some(v) => v
      case None => default
    }
  }

  /** The source's `raise ValueError(...)` is `Err`; nothing is committed in that case. */
  datatype Result<+T> = Ok(value: T) | Err(error: string)

  datatype Priority = P0 | P1 | P2 | P3 | P4

  /** 0 is the most urgent. */
  function Rank(p: Priority): nat {
    match p
    case P0 => 0
    case P1 => 1
    case P2 => 2
    case P3 => 3
    case P4 => 4
  }

  datatype MatchClass = Confirmed | Deterministic | Corroborated | Candidate | NotAffected

  /** The classes that open remediation cases. */
  predicate CaseClass(c: MatchClass) {
    c == Confirmed || c == Deterministic
  }

  /** `x` is `a`, or the earlier `b` where that is known. */
  predicate Either<T(==)>(x: T, a: T, bKnown: bool, b: T) {
    x == a || (bKnown && x == b)
  }
}
