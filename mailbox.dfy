/**
 * The single-slot mailbox (mailbox.rs): the latest value a producer put and
 * no consumer has taken yet. Handles made with `Clone` share one slot, as the
 * Rust handles share one `Arc`. The model is sequential: the lock only makes
 * each operation atomic, so it is not represented.
 */
module Mailbox {
  import opened Options

  /** The shared cell behind every handle of one mailbox. */
  class Slot<T> {
    var value: Option<T>

    constructor ()
      ensures value == None
    {
      value := None;
    }
  }

  class Mailbox<T> {
    const inner: Slot<T>

    /** A new mailbox holds nothing. */
    constructor ()
      ensures fresh(inner) && inner.value == None
    {
      inner := new Slot();
    }

    constructor Sharing(inner: Slot<T>)
      ensures this.inner == inner
    {
      this.inner := inner;
    }

    /** Another handle on the same slot. */
    method Clone() returns (m: Mailbox<T>)
      ensures fresh(m) && m.inner == inner
    {
      m := new Mailbox.Sharing(inner);
    }

    /** Stores `v`, replacing whatever was there unread. */
    method Put(v: T)
      modifies inner
      ensures inner.value == Some(v)
    {
      inner.value := Some(v);
    }

    /**
     * Takes the stored value, if any, leaving the slot empty. The callback of
     * the Rust `if_new` runs once, on `taken.value`, exactly when `taken` is
     * `Some`; the caller does that with the result.
     */
    method IfNew() returns (taken: Option<T>)
      modifies inner
      ensures taken == old(inner.value) && inner.value == None
    {
      taken := inner.value;
      inner.value := None;
    }
  }

  /** A second put overwrites the first; the value is delivered once, and a second poll finds nothing. */
  method LatestValueWins<T>(a: T, b: T) returns (first: Option<T>, second: Option<T>)
    ensures first == Some(b) && second == None
  {
    var m := new Mailbox<T>();
    m.Put(a);
    m.Put(b);
    first := m.IfNew();
    second := m.IfNew();
  }

  /** What a clone puts, the original takes, once: a later poll through the clone finds nothing. */
  method ClonesShareTheSlot<T>(v: T) returns (seenByOriginal: Option<T>, seenByClone: Option<T>)
    ensures seenByOriginal == Some(v) && seenByClone == None
  {
    var rx := new Mailbox<T>();
    var tx := rx.Clone();
    tx.Put(v);
    seenByOriginal := rx.IfNew();
    seenByClone := tx.IfNew();
  }

  /** A mailbox nobody puts into never runs the callback, however often it is polled. */
  method NeverPutNeverDelivers<T>(polls: nat) returns (deliveries: int)
    ensures deliveries == 0
  {
    var m := new Mailbox<T>();
    deliveries := 0;
    var i := 0;
    while i < polls
      invariant m.inner.value == None
      invariant deliveries == 0
    {
      var taken := m.IfNew();
      if taken.Some? {
        deliveries := deliveries + 1;
      }
      i := i + 1;
    }
  }
}
