/** Types shared by the models of the serializer, the schedulers and the race detector. */
module SerializerTypes {

  type ThrID = int

  /** `INVALID_THREAD` of the source: "no thread". */
  const INVALID_THREAD: ThrID := -1

  /** `UNJOINED` of the source: nobody waits for this thread. */
  const UNJOINED: ThrID := -1

  /** Addresses of pthread objects. A null pointer in a tracker map is `None`. */
  type Mutex = int
  type Cond = int
  type Sem = int
  type Barrier = int

  datatype Option<+T> = None | Some(value: T)

  lemma Element<T>(s: set<T>) returns (x: T)
    requires s != {}
    ensures x in s
  {
    x :| x in s;
  }

  /** A nonempty set of threads (or of addresses) has an element to iterate over next. */
  lemma HasElement(s: set<int>)
    requires s != {}
    ensures exists x :: x in s
  {
    var x := Element(s);
    assert x in s;
  }

  lemma {:induction false} SubsetSize<T>(a: set<T>, b: set<T>)
    requires a <= b
    ensures |a| <= |b|
    decreases |a|
  {
    if a != {} {
      var x := Element(a);
      SubsetSize(a - {x}, b - {x});
    }
  }
}
