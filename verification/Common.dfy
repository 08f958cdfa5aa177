/** Machine integers, bytes, digests and the opaque functions that every other
    module takes as parameters. */
module Common {

  datatype Option<+T> = None | Some(value: T)

  datatype Result<+T> = Ok(value: T) | Err

  newtype byte = n: int | 0 <= n < 256

  type Bytes = seq<byte>

  const TWO32: int := 0x1_0000_0000
  const TWO62: int := 0x4000_0000_0000_0000
  const TWO63: int := 0x8000_0000_0000_0000
  const TWO64: int := 0x1_0000_0000_0000_0000

  type uint32 = n: int | 0 <= n < TWO32

  type uint64 = n: int | 0 <= n < TWO64

  type int64 = n: int | -TWO63 <= n < TWO63

  const HASH_SIZE: nat := 32
  const PUBLIC_KEY_SIZE: nat := 32

  /** The amount the faucet starts with; it fits in a uint64. */
  const GENERATOR_BALANCE: uint64 := 10_000_000_000_000_000_000

  type Digest = d: Bytes | |d| == HASH_SIZE witness seq(HASH_SIZE, _ => 0)

  type Key = k: Bytes | |k| == PUBLIC_KEY_SIZE witness seq(PUBLIC_KEY_SIZE, _ => 0)

  /** SHA3-256 is left uninterpreted: results hold for every function from byte
      strings to 32-byte digests. Injectivity is never assumed of it. */
  type Hasher = Bytes -> Digest

  predicate IsCollision(h: Hasher, x: Bytes, y: Bytes) {
    x != y && h(x) == h(y)
  }

  /** The number a byte string spells in base 256, most significant byte first:
      math/big's SetBytes, and the inverse of a big-endian write. */
  function BigEndian(s: Bytes): nat {
    if s == [] then 0 else 256 * BigEndian(s[..|s| - 1]) + s[|s| - 1] as nat
  }

  lemma {:induction false} BigEndianInjective(s: Bytes, t: Bytes)
    requires |s| == |t| && BigEndian(s) == BigEndian(t)
    ensures s == t
  {
    if s != [] {
      BigEndianInjective(s[..|s| - 1], t[..|t| - 1]);
      assert s == s[..|s| - 1] + [s[|s| - 1]];
      assert t == t[..|t| - 1] + [t[|t| - 1]];
    }
  }

  /** An element in `xs` is there once only. */
  ghost predicate NoDuplicates<T>(xs: seq<T>) {
    forall i, j :: 0 <= i < j < |xs| ==> xs[i] != xs[j]
  }

  /** The numbers from `lo` up to `hi`, not included. */
  function Numbers(lo: nat, hi: nat): (ns: seq<nat>)
    requires lo <= hi
    ensures |ns| == hi - lo
  {
    seq(hi - lo, i requires 0 <= i => lo + i)
  }

  /** `states` is a run that takes these events by `step`. */
  ghost predicate Steps<S(!new), E(!new)>(states: seq<S>, events: seq<E>, step: (S, E, S) -> bool) {
    && |states| == |events| + 1
    && forall j {:trigger events[j]} :: 0 <= j < |events| ==> step(states[j], events[j], states[j + 1])
  }

  /** Induction along a run: what every step keeps holds all the way. */
  lemma {:induction false} Along<S(!new), E(!new)>(
      states: seq<S>, events: seq<E>, step: (S, E, S) -> bool, inv: (int, S) -> bool, i: nat)
    requires Steps(states, events, step) && i <= |events|
    requires inv(0, states[0])
    requires forall n, s, e, t ::
               0 <= n < |events| && inv(n, s) && step(s, e, t) ==> inv(n + 1, t)
    ensures inv(i, states[i])
    decreases i
  {
    if i > 0 {
      Along(states, events, step, inv, i - 1);
      assert step(states[i - 1], events[i - 1], states[i]);
    }
  }

  /** A run can go on with any step from where it ends. */
  lemma StepsExtend<S(!new), E(!new)>(states: seq<S>, events: seq<E>, step: (S, E, S) -> bool, e: E, t: S)
    requires Steps(states, events, step) && step(states[|events|], e, t)
    ensures Steps(states + [t], events + [e], step)
  {
    var states', events' := states + [t], events + [e];
    forall j {:trigger events'[j]} | 0 <= j < |events'|
      ensures step(states'[j], events'[j], states'[j + 1])
    {
      if j < |events| {
        assert events'[j] == events[j];
      }
    }
  }
}
