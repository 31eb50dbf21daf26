/** Shapes shared by every protocol. */
module Basics {

  datatype Option<+T> = None | Some(value: T)

  /** How a write to a remote store can end: it worked; it failed and nothing happened;
      it took effect but the reply was an error. */
  datatype Fault = Healthy | Lost | AckLost

  predicate TookEffect(f: Fault) {
    !f.Lost?
  }

  lemma {:induction false} SubsetSize<T>(a: set<T>, b: set<T>)
    requires a <= b
    ensures |a| <= |b|
  {
    if a != {} {
      var x :| x in a;
      SubsetSize(a - {x}, b - {x});
    }
  }
}
