/**
 * Identifiers of the entities. Each `ServerRecord` and `RecordDetail` is
 * given a new `UUID()` when it is created; the model replaces the system's
 * UUID generator by an explicit source of abstract tokens that never hands
 * out the same token twice.
 */
module Ids {

  /** An opaque identifier; only its equality matters to the program. */
  datatype Uuid = Uuid(token: nat)

  /** The generator behind `UUID()`: every token below `next` has been issued. */
  class IdSource {
    var next: nat

    /** `u` has already been handed out by this source. */
    predicate Issued(u: Uuid)
      reads this
    {
      u.token < next
    }

    constructor ()
      ensures next == 0
      ensures forall u: Uuid :: !Issued(u)
    {
      next := 0;
    }

    /** A new identifier, different from every one issued before. */
    method Fresh() returns (u: Uuid)
      modifies this
      ensures !old(Issued(u)) && Issued(u)
      ensures u.token == old(next) && next == old(next) + 1
      ensures forall v: Uuid :: old(Issued(v)) ==> Issued(v)
    {
      u := Uuid(next);
      next := next + 1;
    }
  }
}
