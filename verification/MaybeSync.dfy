/** `MaybeSync`: a future that is either ready at once or an asynchronous one. */
module MaybeSync {

  datatype Poll<V> = Ready(v: V) | Pending | Panicked

  datatype MaybeSync<F, V> = Sync(v: V) | Async(fut: F) | SyncPolled

  /** One poll in the state `s`, the inner future being polled by `poll`. */
  function PollStep<F, V, S>(m: MaybeSync<F, V>, s: S, poll: (F, S) -> (F, S, Poll<V>)): (MaybeSync<F, V>, S, Poll<V>) {
    match m
    case Sync(v) => (SyncPolled, s, Ready(v))
    case Async(f) => var (f', s', p) := poll(f, s); (Async(f'), s', p)
    case SyncPolled => (SyncPolled, s, Panicked)
  }

  /** What `n` polls in a row give. */
  function Polls<F, V, S>(m: MaybeSync<F, V>, s: S, poll: (F, S) -> (F, S, Poll<V>), n: nat)
    : (r: (MaybeSync<F, V>, S, seq<Poll<V>>))
    ensures |r.2| == n
  {
    if n == 0 then (m, s, []) else
    var (m1, s1, ps) := Polls(m, s, poll, n - 1);
    var (m2, s2, p) := PollStep(m1, s1, poll);
    (m2, s2, ps + [p])
  }

  function FuturePolls<F, V, S>(f: F, s: S, poll: (F, S) -> (F, S, Poll<V>), n: nat): (r: (F, S, seq<Poll<V>>))
    ensures |r.2| == n
  {
    if n == 0 then (f, s, []) else
    var (f1, s1, ps) := FuturePolls(f, s, poll, n - 1);
    var (f2, s2, p) := poll(f1, s1);
    (f2, s2, ps + [p])
  }

  /** A `Sync` is ready on its first poll and panics on every later one; the state is left alone. */
  lemma {:induction false} SyncPolls<F, V, S>(v: V, s: S, poll: (F, S) -> (F, S, Poll<V>), n: nat)
    ensures n > 0 ==> Polls(Sync(v), s, poll, n).0 == SyncPolled
    ensures Polls(Sync(v), s, poll, n).1 == s
    ensures forall k :: 0 <= k < n ==> Polls(Sync(v), s, poll, n).2[k] == if k == 0 then Ready(v) else Panicked
    decreases n
  {
    if n > 0 { SyncPolls(v, s, poll, n - 1); }
  }

  /** An `Async` is polled exactly as the future it holds. */
  lemma {:induction false} AsyncPolls<F, V, S>(f: F, s: S, poll: (F, S) -> (F, S, Poll<V>), n: nat)
    ensures var (f', s', ps) := FuturePolls(f, s, poll, n);
      Polls(Async(f), s, poll, n) == (Async(f'), s', ps)
    decreases n
  {
    if n > 0 { AsyncPolls(f, s, poll, n - 1); }
  }

  function ReadyCount<V>(ps: seq<Poll<V>>): nat {
    if ps == [] then 0 else ReadyCount(ps[..|ps| - 1]) + if ps[|ps| - 1].Ready? then 1 else 0
  }

  /** The output of a `Sync` is moved out once if it is polled at all, and never again. */
  lemma {:induction false} OutputMovedOnce<F, V, S>(v: V, s: S, poll: (F, S) -> (F, S, Poll<V>), n: nat)
    ensures ReadyCount(Polls(Sync(v), s, poll, n).2) == if n == 0 then 0 else 1
    decreases n
  {
    if n > 0 {
      OutputMovedOnce(v, s, poll, n - 1);
      SyncPolls(v, s, poll, n);
      var ps := Polls(Sync(v), s, poll, n).2;
      assert ps[..n - 1] == Polls(Sync(v), s, poll, n - 1).2;
    }
  }

  class MaybeSyncCell<F, V, S> {
    var m: MaybeSync<F, V>
    const poll: (F, S) -> (F, S, Poll<V>)

    constructor (m: MaybeSync<F, V>, poll: (F, S) -> (F, S, Poll<V>))
      ensures this.m == m && this.poll == poll
    {
      this.m, this.poll := m, poll;
    }

    /** `take_sync`: the unreachable arm is unreachable under its precondition. */
    method TakeSync() returns (v: V)
      requires m.Sync?
      modifies this
      ensures old(m) == Sync(v) && m == SyncPolled
    {
      var taken := m;
      m := SyncPolled;
      match taken
      case Sync(res) => v := res;
    }

    method Poll(s: S) returns (s': S, p: Poll<V>)
      modifies this
      ensures (m, s', p) == PollStep(old(m), s, poll)
    {
      s' := s;
      match m
      case Sync(_) =>
        var res := TakeSync();
        p := Ready(res);
      case Async(fut) =>
        var (fut', s1, r) := poll(fut, s);
        m, s', p := Async(fut'), s1, r;
      case SyncPolled =>
        p := Panicked;
    }

    method PollTimes(s: S, n: nat) returns (s': S, ps: seq<Poll<V>>)
      modifies this
      ensures (m, s', ps) == Polls(old(m), s, poll, n)
    {
      s', ps := s, [];
      for i := 0 to n
        invariant (m, s', ps) == Polls(old(m), s, poll, i)
      {
        var p;
        s', p := Poll(s');
        ps := ps + [p];
      }
    }
  }
}
